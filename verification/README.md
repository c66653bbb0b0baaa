# Verified models of the runtime's protocols

This is a Dafny model of the distributed protocols at the core of this OpenSHMEM 1.4 runtime, with proofs of what
they promise.  Each protocol is a set of PEs with a program counter each, per-PE memory cells, and puts and
increments that are delivered at any later time.  The number of PEs, the number of calls, the data and the
interleaving are unbounded everywhere.

A protocol comes in two layers:

- a state machine (`State`, `Event`, `Enabled`, `Apply`, `Next`) with one event per memory access of the code and
  one per delivery; the theorems are about all its reachable states and runs (`Runs.dfy`);
- a `...Code` module: the helper functions of the source as methods on a class whose fields are the memory.
  Between every two accesses the method `Others` may change everything but the PE's own position.  Every access is
  proved to be a step of the machine (`Step`), so the theorems hold of the code as written.  A wait gives up after
  `patience` looks, since a method has to end; the contract says where the call then is, and that what it waits for
  is not so in the state it leaves.

| file | what it models |
|---|---|
| Runs, Bits, Lists, Trees | runs and measures; integer arithmetic and bitwise operators; sequences; k-ary and binomial trees, root swap, PE numbers |
| LockWord, McsLock, McsLockProof, LockCode | the queue lock of `src/shmemc/locks.c` |
| BarrierSpec, BarrierLinear, BarrierTree, BarrierDissem, BarrierCode | one abstract barrier and the three implementations that refine it |
| Broadcast, BroadcastCode | the tree, binomial and binomial2 broadcasts |
| FetchOp | fetch-and-and/or/xor built from get and compare-and-swap |
| Reduce, ReduceRun | reductions in work-array chunks |
| Collect | fcollect and collect, with a closing barrier that is only a contract |
| AnyBarrier, LostPoke, DissemLeaves | the three barriers behind one interface, and what becomes of each when a poke is lost |
| CollectRun, CollectSums, CollectExactly, CollectReturns, CollectCode | fcollect and collect with each of the three barriers on the cells they share |
| Matmul, MatmulRun | the rotating-stripe matrix multiply |
| Carriers, Ring, RingCode, Checkpoint, CheckpointRun, CheckpointCode, Roles | many-copy checkpoint and rollback |

Reductions and matrix multiply use only the contract in BarrierSpec.  collect cannot: its closing barrier works on the
very pSync cells that carry its running sums, so CollectRun composes it with the barriers themselves.

## What the proofs found

- `test_lock` can wait: it reads the word and then runs the whole of `set_lock`, and another PE can swap in between
  (`McsLockProof.TestLockCanWait`).  It never returns 0 without holding the lock.
- The dissemination barrier uses one pSync cell per round, but `SHMEM_BARRIER_SYNC_SIZE` counts two on a 64-bit
  machine (`include/shmem/defs.h:89`), and the cells for `barrier_all` are allocated with that size: every run stays
  inside them exactly if there are at most four PEs (`BarrierDissem.PublishedSizeSuffices`).
- collect shares its pSync cell with its closing barrier, and a fast PE's first poke can land on the cell of a slower
  one that still uses it.  That PE later clears the poke away and waits for it in the barrier: it never returns
  (`CollectRun.HitNeverReturns`).  If it has not read its offset, it puts its slice too far to the right, and so does
  everybody to its right if it had not forwarded its sum either (`CollectSums.HitMovesSlices`).  Such runs exist with
  each of the three barriers, for every number of PEs from two and all contributions of which the first is not empty
  (`CollectExactly.Race`).  No run puts a slice too far to the left (`CollectSums.SumsNeverShort`).
- So a call uses its prefix sums in every run and always comes back if and only if it is fcollect or on a single PE
  (`CollectExactly.AlwaysRightExactly`).  A run of collect that has come to its end has everybody back if and only if no
  cell was hit and the first PE contributes something or is alone (`CollectRun.EndsWithAllBackExactly`).
- What a PE returns with is right all the same in every run with the linear and the tree barrier.  With the
  dissemination barrier that holds only of a single PE or when nobody contributes anything: for all other contributions
  some run has a PE return with a wrong target (`CollectReturns.ReturnsRightExactly`).
- When the first of two or more PEs contributes nothing, line 37 waits for a running sum that is zero.  The second PE
  waits for ever with the linear and the tree barrier; with the dissemination barrier the first PE's poke wakes it, with
  a sum that is wrong (`CollectExactly.SecondWakesExactly`).
- The overlap test of the reductions scales its byte count by the element size once more, so it reports some areas
  that are apart; it never misses an overlap (`Reduce.OverlapNeverMissed`).
- The check queue of a storage PE bears length - 1 outstanding tickets, because the consumer advances the head before it
  copies the slot; the reservation queue, where it copies first, bears length.  In both, one more can corrupt a carrier
  (`Ring.LimitIsTight`).
- A rollback reads `count % 100` words of the last carrier: a part whose length is a positive multiple of 100 loses
  its last 100 words, every other length is restored exactly (`Checkpoint.RoundTrip`).
- After a failure every rank is still played by exactly one live PE if the dead PE was an original one or the last
  storage PE of the list, and in no other case (`Roles.GoodAfterExactly`).  Either way all survivors compute the same
  tables (`Roles.SurvivorsAgree`).
- The matrix multiply computes the product on the rows and columns the stripes cover, which is the whole matrix
  exactly if the number of PEs divides its size; otherwise the columns behind are zero
  (`MatmulRun.WholeProductExactly`).

## Assumptions

- Locks: at most 32768 PEs (ranks are stored in 16 bits, `LockWord.RankFits`), and all PEs compute the same owner.
- A put, an atomic and a fetching atomic each take effect at one moment at their target; fetching atomics are
  complete when they return; other puts and increments are delivered once, at any later time, except across a fence
  to the same PE; quiet waits until the caller's puts are delivered.  `SHMEM_SYNC_VALUE` is 0.
- C `int` and `long` counters are unbounded integers, except for the lock word (explicit 16- and 32-bit conversions),
  the 31-bit masks of the binomial tree, and the truncating division in the number of carriers.  Matrix entries are
  unbounded; the code's wrap-around at 64 bits is a ring homomorphism, so it would not change the results.
- Broadcast: one call that starts with every pSync zero, as its specification demands.
- Checkpoint: ids are reserved in order, before use; counts are not negative; reservations, checkpoints and
  rollbacks are separated by barriers, as the example program does, so that a storage PE has taken in a PE's reservation
  before its next checkpoint and its checkpoints before its next reservation; a rollback follows a checkpoint of every part.

## Model

| member | source | states |
|---|---|---|
| LockWord.BlobFaithful | src/shmemc/locks.c:24-35 | On either byte order, equal blobs are equal words, and the blobs -1 and 0 stand for exactly the words FREE and RESET, so comparing blobs compares words. |
| LockWord.RankFits | src/shmemc/locks.c:24-30 | A rank survives the 16-bit half exactly when it is at most 32767. |
| McsLockProof.MutualExclusion | src/shmemc/locks.c:48-102 | In every reachable state of any number of PEs running set, test and clear at any time, with puts landing at any time, at most one PE is in the critical section. |
| McsLockProof.FirstComeFirstServed | src/shmemc/locks.c:59-76 | PEs enter in the order of their swaps on the word, and at most the front one is still missing: nobody is overtaken. |
| McsLockProof.WordNamesTail | src/shmemc/locks.c:53-63 | The word is {1, tail of the queue} while anybody holds or waits, and RESET or FREE exactly when nobody does; FREE only until the first swap. |
| McsLockProof.ReleaseTestExact | src/shmemc/locks.c:83-99 | The release test on the rank half alone is true exactly when the compare-and-swap took effect and exactly when nobody queues behind; otherwise the successor's link is still to be issued, on its way, or there. |
| McsLockProof.HandOverToSuccessor | src/shmemc/locks.c:98-101 | The put that hands the lock over goes to the next PE in swap order, which is waiting for it. |
| McsLockProof.EntrySeesEarlierPuts | src/shmemc/locks.c:139-148 | When a PE enters, every put ever issued inside a critical section has been delivered, thanks to the quiet before release. |
| McsLockProof.NoDeadlock | src/shmemc/locks.c:48-125 | Unless all PEs are idle and nothing is in flight, some step other than a new request is possible. |
| McsLockProof.RequestsAreServed | src/shmemc/locks.c:48-125 | Under every schedule the calls already made finish within a bounded number of steps, with every swap served and the word free again. |
| McsLockProof.SwapEntersIffFree | src/shmemc/locks.c:59-65 | A swap gets the lock at once exactly when nobody holds or awaits it at that moment. |
| McsLockProof.TestLockCanWait | src/shmemc/locks.c:104-125 | A run in which a test_lock call that read a free word has to wait behind another PE. |
| McsLockProof.WordFits | src/shmemc/locks.c:24-30 | With at most 32768 PEs no reachable word is truncated by its 16-bit halves. |
| LockCode.SharedLock.SetLock | src/shmemc/locks.c:48-76 | set_lock under any interference: on return the caller holds the lock and nobody else does; it gives up only while its own node says locked. |
| LockCode.SharedLock.ClearLock | src/shmemc/locks.c:78-102 | Quiet and clear_lock by the holder under any interference: every access is a step of the machine, on return the caller is out, and it gives up only while a put of its own is under way or no link has come. |
| LockCode.SharedLock.TestLock | src/shmemc/locks.c:104-125 | test_lock returns 0 only to a PE that holds the lock alone, 1 exactly if the word it read was locked, and then changes nothing. |
| BarrierSpec.NobodyLeavesEarly | src/shmemc/barrier.c:175-181 | What every allowed history of a barrier has: no PE has left more calls than any PE has made, and no two are more than one call apart. |
| BarrierSpec.RefinesBarrier | src/shmemc/barrier.c:175-181 | A system each of whose steps is a barrier step or invisible only reaches histories the barrier allows. |
| BarrierLinear.LinearIsBarrier | src/shmemc/barrier.c:19-50 | Over any number of calls on the same cells the linear helper refines the barrier. |
| BarrierLinear.AckNeverZero | src/shmemc/barrier.c:27-39 | Every ack under way, the root's cell at entry plus one, is between 1 and the size, so never the sync value the others wait to change. |
| BarrierLinear.ResetLosesNothing | src/shmemc/barrier.c:31-48 | The resets never erase a poke or an ack of the next call. |
| BarrierLinear.NoDeadlock | src/shmemc/barrier.c:19-50 | Once every PE has made its call, somebody can move until all have left. |
| BarrierLinear.CallsComplete | src/shmemc/barrier.c:19-50 | Under every schedule all the calls finish within a bounded number of steps. |
| BarrierTree.TreeIsBarrier | src/shmemc/barrier.c:63-97 | On any tree, over any number of calls on one cell per PE, the tree helper refines the barrier. |
| BarrierTree.WaitsNotOvershot | src/shmemc/barrier.c:79-90 | The cell never passes the value either equality wait is for. |
| BarrierTree.ResetLosesNothing | src/shmemc/barrier.c:92-93 | When a PE resets its cell it holds exactly this call's pokes and release, none of the next. |
| BarrierTree.NoDeadlock | src/shmemc/barrier.c:63-97 | Once every PE has made its call, somebody can move until all have left. |
| BarrierTree.CallsComplete | src/shmemc/barrier.c:63-97 | Under every schedule all the calls finish within a bounded number of steps. |
| BarrierTree.StartsOnBinaryTree | src/shmemc/barrier.c:58-77 | The tree the helper builds, of degree 2, is one the theorems hold for, for every size. |
| Bits.AheadIsModulo | src/shmemc/barrier.c:114-115 | The target of a round, taken modulo the size, and its inverse, the only PE that pokes one here. |
| BarrierDissem.WindowDoubles | src/shmemc/barrier.c:114-129 | If everybody's window of 2^r PEs has entered the call, one more round makes it 2^(r+1). |
| BarrierDissem.WindowHasEntered | src/shmemc/barrier.c:114-129 | After r rounds of its k-th call a PE knows that the min(size, 2^r) PEs ending at itself have made that call. |
| BarrierDissem.CellCounts | src/shmemc/barrier.c:117-128 | Each cell is the pokes of its one source delivered minus the pokes consumed, and always 0, 1 or 2. |
| BarrierDissem.DissemIsBarrier | src/shmemc/barrier.c:105-130 | Over any number of calls on the same cells the dissemination helper refines the barrier. |
| BarrierDissem.NoDeadlock | src/shmemc/barrier.c:105-130 | Once every PE has made its call, somebody can move until all have left. |
| BarrierDissem.CallsComplete | src/shmemc/barrier.c:105-130 | Under every schedule all the calls finish within a bounded number of steps. |
| BarrierDissem.PublishedSizeSuffices | include/shmem/defs.h:86-89 | No reachable state of the dissemination barrier is about to poke, read or decrement a cell beyond the two that are allocated, exactly if there are at most four PEs; with more some run gets to the third cell. |
| LinearBarrierCode.PSync.Helper | src/shmemc/barrier.c:19-50 | The linear helper under any interference: when a call returns, every PE has made that call; it gives up only with its pokes incomplete, or no ack in its cell. |
| TreeBarrierCode.PSync.Helper | src/shmemc/barrier.c:63-97 | The tree helper under any interference: when a call returns, every PE has made that call; it gives up only while its cell does not hold the awaited value. |
| TreeBarrierCode.PSync.WaitCell | src/shmemc/barrier.c:79-90 | An equality wait ends only at a moment when the cell holds exactly the awaited value, and then leads to the poke of the parent or the reset. |
| DissemBarrierCode.PSync.Helper | src/shmemc/barrier.c:105-130 | The dissemination helper under any interference: when a call returns, every PE has made that call; it gives up only while its cell of the round is zero. |
| Trees.ChildrenInfo | src/shmemc/collalgo.c:14-33 | The range returned is exactly the nodes whose parent formula gives this node, and -1, -1 stands for none. |
| Trees.KaryIsTree | src/shmemc/collalgo.c:14-33 | For every size and degree the child ranges partition 1..size-1 and agree with the parent formula, (node - 1) / degree. |
| Trees.ChildrenInfoBinomial | src/shmemc/collalgo.c:35-59 | The mask loop stores, the largest first, exactly the existing nodes c with c & (c - 1) == node, at most 31 of them. |
| Trees.BinomialMember | src/shmemc/broadcast.c:19-23 | A node is in a PE's binomial child list if and only if get_parent_binomial of the node is that PE. |
| Trees.BinomialIsTree | src/shmemc/collalgo.c:35-59 | For every size a C int can hold the binomial child lists are disjoint, cover 1..size-1, and have smaller parents. |
| Trees.AckGoesToSender | src/shmemc/broadcast.c:60-98 | With PE numbers start + index * 2^logstride: through the root/0 swap, the PE a node acks is the PE that sent to it, and the PE a parent sends to is the one that plays the child. |
| Trees.RolesAreBijective | src/shmemc/broadcast.c:60-68 | Different nodes are played by different PEs, and PE start + u * 2^logstride plays node u, with the root and 0 swapped. |
| Trees.ActiveSet | src/shmemc/broadcast.c:56-98 | The PEs that play nodes are exactly those at multiples of the stride from the start, below size strides. |
| Broadcast.EverybodyHasTheData | src/shmemc/broadcast.c:49-117 | When all have returned, every target but the root's is the root's source, written exactly once, the root's was never written, every pSync is zero and nothing is in flight. |
| Broadcast.NothingStale | src/shmemc/broadcast.c:146-171 | A node past its wait has its final data, and all data on the way is the root's: nothing stale is forwarded, although only a fence orders data and signal. |
| Broadcast.WaitsNotOvershot | src/shmemc/broadcast.c:112-113 | The cell never passes the number of children plus one, and counts nothing but its signal while the node waits for data. |
| Broadcast.SomethingLands | src/shmemc/broadcast.c:96-110 | The fence order never blocks delivery: whenever something is in flight, something can land. |
| Broadcast.NoDeadlock | src/shmemc/broadcast.c:182-248 | Until all have returned some step is possible, on any tree and in both send orders. |
| Broadcast.BroadcastCompletes | src/shmemc/broadcast.c:119-180 | Under every schedule the broadcast ends within a bounded number of steps, with everybody done. |
| BroadcastCode.Memory.HelperTree | src/shmemc/broadcast.c:49-117 | The tree helper under any interference: on return the target is the root's source, written once, or at the root untouched; it gives up only while its cell lacks the data's signal or an ack. |
| BroadcastCode.Memory.HelperBinomial | src/shmemc/broadcast.c:119-180 | The same of the binomial helper, which puts, fences and signals child by child. |
| BroadcastCode.Memory.HelperBinomial2 | src/shmemc/broadcast.c:182-248 | The same of the binomial2 helper: all puts, one fence, all signals. |
| FetchOp.Linearizable | src/shmemc/comms.c:412-437 | The word is what the effects give when replayed as indivisible operations; each completed operation has exactly one, between its call and its return, which sets bit by bit the conjunction, disjunction or exclusive or with its value, and it returned the word just before. |
| FetchOp.RealTimeOrder | src/shmemc/comms.c:412-437 | Effects keep the real-time order of calls, and no operation has an effect without completing with it. |
| FetchOp.FailureMeansInterference | src/shmemc/comms.c:423-433 | A failed attempt means that since the read an atomic that is not this PE's really changed the word; ABA makes no attempt fail or go wrong. |
| FetchOp.AloneCompletes | src/shmemc/comms.c:412-437 | From any state, however stale what it has read, a call left alone completes within three of its steps: the word as result, and the bitwise effect on it. |
| FetchOp.RemoteWord.Fetch | src/shmemc/comms.c:412-437 | The retry loop under any interference: the result is the word just before this operation's one effect, which leaves bit by bit what and, or or xor says; if it gives up, it has changed nothing and returns the word of its last look. |
| Bits.BitByBit | src/shmemc/comms.c:439-444 | The integer forms of and, or, xor and and-not are the bitwise operators, bit by bit. |
| Bits.BitIsDigit | src/shmemc/comms.c:439-444 | Bit i of a word is its binary digit of weight 2^i. |
| Bits.SameBits | src/shmemc/comms.c:439-444 | Words with the same bits are the same word, so what is said bit by bit determines it. |
| Bits.StaysInWord | src/shmemc/comms.c:439-444 | None of them leaves the word width of its operands. |
| Reduce.OverlapNeverMissed | src/reductions.c:27-30 | Two areas that share a byte are always reported as overlapping; the byte count is scaled once more, so overlap is reported exactly when the areas start less than size * size * nreduce bytes apart. |
| Reduce.FoldIsFoldAll | src/reductions.c:79-111 | For an associative and commutative operator, starting at one's own source gives the same as folding over the PEs in order. |
| Reduce.GatherLoops | src/reductions.c:83-111 | The nested chunk loops, for every work-chunk size: element j ends as the left fold of the sources at j, own source first, then the other PEs in order. |
| Reduce.FoldChunk | src/reductions.c:91-108 | One chunk folds exactly its elements and no others. |
| ReduceRun.ReductionIsFold | src/reductions.c:32-120 | For every operator, size, chunk and interleaving, what a returned PE has in its target is the left fold over the sources as they were at the call, its own first, then the other PEs in order. |
| ReduceRun.OnlyTargetsChange | src/reductions.c:32-120 | In every reachable state the memory of every PE outside its target is what it was at the call, also when source and target overlap. |
| ReduceRun.AllPesAgree | src/reductions.c:32-120 | For an associative and commutative operator all PEs end with the fold over the active set. |
| ReduceRun.SourcesIntactUntilSecondBarrier | src/reductions.c:52-119 | Until the last PE has called the second barrier every source is still the one of the call, because targets that may overlap sources are written only after it. |
| ReduceRun.CheckKeepsApart | src/reductions.c:27-45 | When the test reports no overlap, writing the target leaves the source alone. |
| ReduceRun.CallsFollowBarrier | src/reductions.c:82-113 | In every reachable state the calls and returns of the two barriers of all PEs are one history the barrier allows. |
| ReduceRun.NoDeadlock | src/reductions.c:32-120 | Until all have returned some PE can move. |
| ReduceRun.Completes | src/reductions.c:32-120 | Under every schedule the reduction ends within a bounded number of steps, with every PE back and its fold in its target. |
| Collect.SliceIndex | src/shmemc/fcollect.c:25-39 | fcollect's slice index, (rank - start) >> logstride, is the PE's place in the active set, so the slices are disjoint and in PE order. |
| Collect.EqualOffsets | src/shmemc/fcollect.c:27-28 | With equal contributions, nelems times the index is the sum of the contributions before it. |
| Collect.Destinations | src/shmemc/fcollect.c:29-38 | The send loop visits start, start + stride, ..., one PE for each index of the active set, in order. |
| Collect.SlicesTile | src/shmemc/collect.c:52-64 | Slices that sit at their offsets make the front of the target the concatenation. |
| AnyBarrier.EffectIsAll | src/shmemc/barrier.c:19-130 | For each of the three barriers, which steps write to the first pSync cell of a PE that has not called it, and what. |
| CollectRun.HitNeverReturns | src/shmemc/collect.c:66-68 | A PE whose cell the closing barrier hits before it has cleared it, wherever it is in collect, never returns; with the linear and the tree barrier then nobody does. |
| CollectRun.HandOver | src/shmemc/collect.c:67-68 | When a PE clears its cell it becomes the barrier's, and both agree that it holds zero, whatever hit it before. |
| CollectRun.ReturnedIsConcatenation | src/shmemc/collect.c:22-69 | When any PE returns, its whole target is the concatenation in PE order and what lies behind is untouched: in fcollect with each barrier, in collect in every run with the linear and the tree barrier, with dissemination if no cell was hit. |
| CollectRun.AllBackMeansConcatenation | src/shmemc/collect.c:22-69 | When all PEs have returned, with any barrier and in every run, no cell was hit and every target is the concatenation. |
| CollectRun.UndisturbedOffsets | src/shmemc/collect.c:44-54 | As long as no cell was hit, the offset each PE uses is the sum of the contributions to its left. |
| CollectRun.EndsWithAllBackExactly | src/shmemc/collect.c:22-69 | A run that has come to its end has everybody back if and only if no cell was hit and the first PE contributes something or is alone, or the call is fcollect. |
| CollectRun.CalmRunsEnd | src/shmemc/fcollect.c:17-40 | Every run of fcollect, and of collect on one PE, ends within a bounded number of steps, barrier included. |
| CollectExactly.AlwaysRightExactly | src/shmemc/collect.c:22-69 | In every run of a call all offsets are prefix sums and the end has everybody back, if and only if the call is fcollect or there is one PE. |
| CollectExactly.Race | src/shmemc/collect.c:54-68 | With two or more PEs, any contributions of which the first is not empty, and each of the barriers, some run has a PE about to send its slice one element too far. |
| CollectSums.SumsLandInTime | src/shmemc/collect.c:36-50 | In every run, whatever was hit, a running sum lands only while its PE still waits for it, in a cell that is zero; so it never overwrites a hit, nor a cell that is cleared for the barrier. |
| CollectSums.SumsNeverShort | src/shmemc/collect.c:44-54 | In every run the offset a PE uses is at least the sum of the contributions to its left. |
| CollectSums.HitMovesSlices | src/shmemc/collect.c:36-54 | Whenever an increment of the barrier hits a PE that has not read its offset, the first hit of the run or a later one, in every continuation the offset that PE uses is too large, and those of all PEs to its right if it had not forwarded its sum. |
| CollectExactly.SecondWakesExactly | src/shmemc/collect.c:36-38 | In collect on two or more PEs some run gets the second PE past its wait if and only if the first contributes something or the barrier is dissemination. |
| DissemLeaves.LeaverHasLeft | src/shmemc/barrier.c:105-130 | When a dissemination barrier has lost one poke of round 0 and nothing more can happen, a certain PE has left it all the same: the next one for an even number of PEs, the second behind for an odd number. |
| CollectReturns.ReturnsRightExactly | src/shmemc/collect.c:22-69 | With a given barrier and given contributions every PE that returns from collect has the concatenation in every run, whatever the targets held, if and only if the barrier is not dissemination, or there is one PE, or nobody contributes anything. |
| CollectCode.Memory.FixedCollect | src/shmemc/fcollect.c:17-40 | fcollect under any interference: on return the target is the concatenation; it gives up only while a put of its own is under way or the barrier holds it. |
| CollectCode.Memory.VarCollect | src/shmemc/collect.c:22-69 | collect under any interference: on return the target is the concatenation, with the linear and the tree barrier always, with dissemination if no cell was hit early, the PE is alone or nobody contributes anything. |
| Matmul.Mmul | resilience-examples/matmul.c:8-24 | The triple loop, in place: each cell of the block gains the full product entry, no other cell changes. |
| MatmulRun.HoldsRotatedStripe | resilience-examples/matmul.c:72-82 | When PE p multiplies in step s its buffer holds column stripe (p + s) mod npes, with gets completing at any time. |
| MatmulRun.NoBufferRace | resilience-examples/matmul.c:72-84 | No buffer is written while a get reads it, and no PE multiplies with the buffer it is filling. |
| MatmulRun.StripeIsProduct | resilience-examples/matmul.c:72-84 | Once a PE has made its last barrier call its stripe of C is its row stripe of A times B in the columns the stripes cover, and zero behind them. |
| MatmulRun.Gather | resilience-examples/matmul.c:87-96 | The gather puts stripe p at offset p of the result, without disturbing the others or what lies behind. |
| MatmulRun.GatheredIsProduct | resilience-examples/matmul.c:83-96 | PE 0 gathers when its own last barrier call has returned, while others may still be inside: the gathered matrix is the product on all rows and columns the stripes cover, and zero in the columns behind. |
| MatmulRun.WholeProductExactly | resilience-examples/matmul.c:49-96 | For all matrices and in every run the gathered matrix equals the product on all N x N cells, if and only if the number of PEs divides N. |
| MatmulRun.NoDeadlock | resilience-examples/matmul.c:72-84 | Until all PEs are finished some step is possible. |
| MatmulRun.Completes | resilience-examples/matmul.c:72-84 | Under every schedule the multiplication ends within a bounded number of steps, with all PEs finished. |
| Ring.CopyIntact | resilience-examples/rollback_matmul.c:660-687 | Although the flag is cleared, and in the check queue the head advanced, before the copy, the slot still holds the carrier of its ticket when it is copied. |
| Ring.TakenInTicketOrder | resilience-examples/rollback_matmul.c:516-687 | As long as no more than length - 1 tickets were outstanding in the check queue, or length in the reservation queue, the carriers taken are exactly the posted ones, each once, intact, in ticket order. |
| Ring.TakenInProducerOrder | resilience-examples/rollback_matmul.c:631-687 | What was taken from one producer is a prefix of what it posted, and all of it once the ring is drained. |
| Ring.NoDeadlock | resilience-examples/rollback_matmul.c:657-687 | As long as a posted carrier is not taken, some step other than a new post is possible. |
| Ring.DrainsInTime | resilience-examples/rollback_matmul.c:657-687 | Without new posts no run is longer than the bound, and one that cannot go on has everything posted taken, in order, and the consumer back at its test. |
| Ring.OneMoreTicketCorrupts | resilience-examples/rollback_matmul.c:516-668 | In any reachable state in which a queue is at its limit and the consumer about to copy, one more post makes it copy the wrong carrier. |
| Ring.LimitIsTight | resilience-examples/rollback_matmul.c:516-668 | For every queue that can bear a ticket there is such a run, so neither limit can be raised. |
| RingCode.Queue.Post | resilience-examples/rollback_matmul.c:631-636 | Posting a carrier takes the next ticket for it, under any interference. |
| RingCode.Queue.TakeOut | resilience-examples/rollback_matmul.c:516-687 | The consuming loop of either queue: the carriers it returns are what it took, and while the limit is kept they are the posted ones up to the head; it returns with the queue empty, with the flag at its head still down, or with as many carriers as it may take. |
| Checkpoint.SpaceIsCeiling | resilience-examples/rollback_matmul.c:601-601 | The truncating division gives the ceiling of count / 100, and one carrier for no words, where rounding down would give none. |
| Checkpoint.SidesAgree | resilience-examples/rollback_matmul.c:625-682 | Sender and receiver, which test differently, compute the same number of words for every carrier, and the carriers tile the part. |
| Checkpoint.PartIsFirstReserve | resilience-examples/rollback_matmul.c:448-480 | A part exists exactly if its id was reserved, and is what the first reservation made it. |
| Checkpoint.LatestIsLastCheck | resilience-examples/rollback_matmul.c:596-607 | The word of a part is what the last checkpoint that included it said, and there is none exactly if none did. |
| Checkpoint.CarriersTellTheCalls | resilience-examples/rollback_matmul.c:620-636 | Splitting into carriers with a buffer that is never cleared loses, adds and reorders nothing: the carriers of any sequence of calls determine the same latest word for every part and index. |
| Checkpoint.CheckStored | resilience-examples/rollback_matmul.c:670-687 | Storing one more carrier in a row gives exactly the words it carries and keeps every other latest word of every part. |
| Checkpoint.StoredIsRemembered | resilience-examples/rollback_matmul.c:660-690 | A storage PE that has stored all carriers of some calls remembers what these calls checkpointed. |
| Checkpoint.ReadBackLosesFullCarrier | resilience-examples/rollback_matmul.c:737-748 | The number of words read back is the part's length exactly if that is zero or not a multiple of 100; otherwise it is 100 less. |
| Checkpoint.RoundTrip | resilience-examples/rollback_matmul.c:734-799 | A rollback brings back every word as last checkpointed, but for the last 100 words of a part whose length is a positive multiple of 100, which stay; so it restores the last checkpoint, whatever happened to the part since, if and only if the length is no such multiple. |
| Checkpoint.LastCallCounts | resilience-examples/rollback_matmul.c:573-607 | After a checkpoint of a whole part and no later one of it, its last words are those of that call. |
| CheckpointCode.FillChunks | resilience-examples/rollback_matmul.c:601-607 | The loops over the shadow memory put every word in place, with its chunk's offset, and keep the words beyond. |
| CheckpointCode.SendChunks | resilience-examples/rollback_matmul.c:620-636 | The loops for one storage PE post exactly the carriers of the checkpoint. |
| CheckpointCode.RestoreEntry | resilience-examples/rollback_matmul.c:737-749 | The restoring loops give exactly the words read back, and leave the rest of the part. |
| CheckpointCode.TakeWords | resilience-examples/rollback_matmul.c:670-687 | The copying loop of a storage PE stores exactly the carrier's words in its chunk. |
| CheckpointCode.ActivePe.Reserve | resilience-examples/rollback_matmul.c:448-498 | A reservation appends a part and posts it to every live storage PE; a second one of the same id changes nothing; shadow memory and posts keep telling the calls. |
| CheckpointCode.ActivePe.Checkpoint | resilience-examples/rollback_matmul.c:596-645 | A checkpoint updates the shadow memory and posts its carriers to every live storage PE; both keep telling all calls so far. |
| CheckpointCode.ActivePe.Rollback | resilience-examples/rollback_matmul.c:733-751 | Every word of every reserved part of a survivor becomes the one last checkpointed; only the last 100 words of a part whose length is a positive multiple of 100 stay. |
| CheckpointCode.ActivePe.StorageDied | resilience-examples/rollback_matmul.c:841-845 | A storage PE that has died counts no more: what holds of the live ones goes on to hold. |
| CheckpointCode.StoragePe.TakeReservations | resilience-examples/rollback_matmul.c:513-560 | Taking in reservations, of any PEs in any order, keeps every row of the table telling its PE's carriers. |
| CheckpointCode.StoragePe.TakeCheckpoints | resilience-examples/rollback_matmul.c:657-690 | Taking in checkpoint carriers, of any PEs in any order, keeps every row of the table telling its PE's carriers. |
| CheckpointCode.StoragePe.Replace | resilience-examples/rollback_matmul.c:767-799 | The replacement takes over the dead PE's row; every word of its symmetric parts becomes the one last checkpointed, but for the last 100 of a part whose length is a positive multiple of 100; these and all private parts stay. |
| CheckpointRun.TakenAsSent | resilience-examples/rollback_matmul.c:482-687 | While active PEs make any calls and post carrier by carrier to the two queues, as long as no queue is overrun, the storage PE can store each carrier as it comes out and has from every PE the first part of what it sent. |
| CheckpointRun.RestRemembers | resilience-examples/rollback_matmul.c:482-690 | When nothing is left to post or to take out, the storage PE has exactly what every PE sent, and a row storing one PE's carriers remembers all its calls. |
| CheckpointRun.PhaseDelivers | resilience-examples/rollback_matmul.c:482-687 | If what the PEs have to post fits into the queues, none is ever overrun and the phase ends within a bounded number of steps with everything taken in. |
| CheckpointCode.RingDelivers | resilience-examples/rollback_matmul.c:516-690 | What comes out of either queue in such a run is of its kind and meets the demands of the storing loops, behind whatever was taken in before. |
| CheckpointCode.Replication | resilience-examples/rollback_matmul.c:448-690 | At the end of a phase an active PE's shadow memory and the tables of any two storage PEs agree on every word it ever checkpointed, whatever came in between from other PEs. |
| Roles.StartGood | resilience-examples/rollback_matmul.c:122-171 | After set-up every rank is played by its own PE and the storage list names exactly the storage PEs. |
| Roles.RoleTables.constructor | resilience-examples/rollback_matmul.c:122-171 | The set-up loops fill the tables with active PEs first and storage PEs behind. |
| Roles.RoleTables.Rollback | resilience-examples/rollback_matmul.c:727-846 | The role updates of a rollback, on every PE but the dead one, entry by entry: the chosen PE gets the rank of the dead one, and nothing else changes. |
| Roles.RoleTables.PeNum | resilience-examples/rollback_matmul.c:349-355 | The rank a PE plays if it plays one, -1 for a dead PE and for a number outside the run, and a waiting storage PE's own number. |
| Roles.OriginalReplaced | resilience-examples/rollback_matmul.c:829-839 | After the failure of an original PE every rank is still played by exactly one live PE and the list names the live storage PEs. |
| Roles.GoodAfterExactly | resilience-examples/rollback_matmul.c:829-846 | That holds after a failure if and only if the dead PE was an original one or the last storage PE of the list. |
| Roles.RanksSurvive | resilience-examples/rollback_matmul.c:729-839 | After as many failures of original PEs as there are storage PEs, in any order, every rank is played by exactly one live PE: the k-th dead one's by the k-th storage PE from the end. |

## Left out

- CollectCode.Memory.VarCollect: with the dissemination barrier it says nothing of a target after a hit unless there is one PE or nothing to collect, because such a call can return with a wrong one (CollectReturns.ReturnsRightExactly); the statements inside the closing barrier are those of the barrier machines, which BarrierCode proves of the code.
- CollectReturns.ReturnsRightExactly: what a misplaced slice writes behind the end of a target is not modelled; the slice lands, and the memory behind is left out.
- CheckpointRun.PhaseDelivers: the signal words that make a storage PE look at its queues are not modelled; it may look at any time.
- CollectCode.Memory.FixedCollect: element sizes and byte counts are not modelled; an element is one integer.
- MatmulRun.WholeProductExactly: leaves out matrices with fewer rows than PEs, for which all stripes are empty.
- BroadcastCode.Memory.HelperTree: one call from all-zero pSync, as for the two binomial helpers; reusing pSync needs a synchronisation between calls, which the specification leaves to the caller.
- CheckpointCode.ActivePe.Rollback: requires that every part was in a checkpoint; before that the code uses offsets it never wrote.
- CheckpointCode.StoragePe.Replace: the resurrected PE's own later checkpoints and rollbacks are not modelled, because rollback does not set its shadow tail.
- McsLockProof.RequestsAreServed: holds for every schedule that keeps taking steps; which schedules do is the network's and the callers' business.
- MatmulRun.StripeIsProduct: the main loop of each PE is a sequence of machine steps, not a method; the kernel and the gather are methods on arrays.
- ReduceRun.ReductionIsFold: the barrier calls around the loops are machine steps; the loops are a method on arrays.
- The linear broadcast helper, which is a barrier and a get.
- The two-copy checkpoint mode, whose storage side never re-arms its hand-off signal, and the other resilience examples.
- Death of a storage PE while it takes in carriers.
- Overflow of head and tail counters, failing memory allocation.
- Floating-point and complex reductions: their addition is not associative, so all that holds of them is the fold theorem.
- alltoall and the strided and sized puts and gets, whose sizes in bits are used as byte counts.
- UCX, PMI, endpoint and key exchange, contexts, logging, environment, Fortran and profiling wrappers, the symmetric heap allocator.
