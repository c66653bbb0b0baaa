/** set_lock, clear_lock and test_lock statement by statement on shared memory, with any number
    of steps of the other PEs and of the network between every two accesses.  Every access is shown
    to be a step of the state machine, so all that is proved of its runs holds of this code. */
module LockCode {
  import opened Runs
  import opened LockWord
  import opened McsLock
  import opened McsLockProof

  /** The lock word at its owner, the nodes of all PEs, and the puts under way; the ghost `s` is the
      machine's state, of which this is the memory. */
  class SharedLock {
    const n: nat
    var word: Word
    var next: seq<int>
    var locked: seq<int>
    var flight: multiset<Put>
    ghost var s: State

    ghost predicate IsMemoryOf(t: State)
      reads this
    {
      t.n == n && t.word == word && t.next == next && t.locked == locked && t.flight == flight
    }

    ghost predicate Valid()
      reads this
    {
      Shape(s) && Reached(s) && IsMemoryOf(s)
    }

    constructor (n: nat)
      requires n > 0
      ensures Valid() && this.n == n && Initial(s)
    {
      this.n, word, flight := n, RESET, multiset{};
      next, locked := seq(n, _ => 0), seq(n, _ => 0);
      s := State(n, RESET, seq(n, _ => 0), seq(n, _ => 0), seq(n, _ => Idle), multiset{},
                 [], seq(n, _ => 0), 0, [], multiset{}, multiset{});
      new;
      ReachableInit(Initial, McsLock.Next, s);
    }

    /** Any number of steps of PEs other than p, and deliveries, may happen here:
        callers know only that the state is still reachable and that p has not moved. */
    method Others(ghost p: nat)
      requires Valid() && p < n
      modifies this
      ensures Valid() && s.pc[p] == old(s.pc[p])
    {
    }

    /** The access just made was the step e. */
    ghost method Step(e: Event)
      requires Shape(s) && Reached(s) && Enabled(s, e) && IsMemoryOf(Apply(s, e))
      modifies `s
      ensures Valid() && s == Apply(old(s), e)
    {
      assert McsLock.Next(s, Apply(s, e));
      ReachableStep(Initial, McsLock.Next, s, Apply(s, e));
      s := Apply(s, e);
    }

    /** node->next = SHMEM_LOCK_FREE */
    method ResetNext(p: nat)
      requires Valid() && p < n && s.pc[p].Init?
      modifies this
      ensures Valid() && s == Apply(old(s), InitNode(p))
      ensures s.pc[p] == Swap(old(s.pc[p].test))
    {
      next := next[p := -1];
      Step(InitNode(p));
    }

    /** swap({1, me}) on the lock word */
    method SwapIn(p: nat) returns (t: Word)
      requires Valid() && p < n && s.pc[p].Swap?
      modifies this
      ensures Valid() && s == Apply(old(s), McsLock.SwapWord(p))
      ensures t == old(word)
      ensures s.pc[p] == if t != FREE && t.locked != 0 then McsLock.SetLocked(t.next, old(s.pc[p].test))
                         else Critical(old(s.pc[p].test))
    {
      t := word;
      word := Word(1, p);
      Step(McsLock.SwapWord(p));
    }

    /** node->locked = 1 */
    method SetLocked(p: nat)
      requires Valid() && p < n && s.pc[p].SetLocked?
      modifies this
      ensures Valid() && s == Apply(old(s), MarkLocked(p))
      ensures s.pc[p] == SendLink(old(s.pc[p].pred), old(s.pc[p].test))
    {
      locked := locked[p := 1];
      Step(MarkLocked(p));
    }

    /** The predecessor's node learns who queues behind it. */
    method PutLinkTo(p: nat, pred: int)
      requires Valid() && p < n && s.pc[p].SendLink? && s.pc[p].pred == pred
      modifies this
      ensures Valid() && s == Apply(old(s), PutLink(p))
      ensures s.pc[p] == Await(pred, old(s.pc[p].test))
    {
      flight := Send(flight, Link(p, pred));
      Step(PutLink(p));
    }

    /** the wait on node->locked ends */
    method LeaveWait(p: nat)
      requires Valid() && p < n && s.pc[p].Await? && locked[p] == 0
      modifies this
      ensures Valid() && s == Apply(old(s), Wake(p))
      ensures s.pc[p] == Critical(old(s.pc[p].test))
    {
      Step(Wake(p));
    }

    /** clear_lock is called */
    method BeginClear(p: nat)
      requires Valid() && p < n && s.pc[p].Critical?
      modifies this
      ensures Valid() && s == Apply(old(s), CallClear(p))
      ensures s.pc[p] == Quiet
    {
      Step(CallClear(p));
    }

    /** shmemc_quiet returns */
    method EndQuiet(p: nat)
      requires Valid() && p < n && s.pc[p] == Quiet && Flushed(s, p)
      modifies this
      ensures Valid() && s == Apply(old(s), Flush(p))
      ensures s.pc[p] == ReadNext
    {
      Step(Flush(p));
    }

    /** read node->next */
    method LoadNext(p: nat) returns (seen: int)
      requires Valid() && p < n && s.pc[p] == ReadNext
      modifies this
      ensures Valid() && s == Apply(old(s), LookNext(p))
      ensures seen == old(next[p]) && s.pc[p] == if seen == -1 then CasWord else HandOver
    {
      seen := next[p];
      Step(LookNext(p));
    }

    /** cswap({1, me} to RESET) on the lock word */
    method CasOut(p: nat) returns (t: Word)
      requires Valid() && p < n && s.pc[p] == CasWord
      modifies this
      ensures Valid() && s == Apply(old(s), Cas(p))
      ensures t == old(word) && s.pc[p] == if t.next == p then Idle else AwaitNext
    {
      t := word;
      if word == Word(1, p) {
        word := RESET;
      }
      Step(Cas(p));
    }

    /** the wait on node->next ends */
    method NextSeen(p: nat)
      requires Valid() && p < n && s.pc[p] == AwaitNext && next[p] >= 0
      modifies this
      ensures Valid() && s == Apply(old(s), SeeNext(p))
      ensures s.pc[p] == HandOver
    {
      Step(SeeNext(p));
    }

    /** The hand-over: zero for the node of the next PE in line. */
    method PutUnlockToNext(p: nat)
      requires Valid() && p < n && s.pc[p] == HandOver
      modifies this
      ensures Valid() && s == Apply(old(s), PutUnlock(p))
      ensures s.pc[p] == Idle
    {
      flight := Send(flight, Unlock(p, next[p]));
      Step(PutUnlock(p));
    }

    /** test_lock looks at the word. */
    method GetWord(p: nat) returns (t: Word)
      requires Valid() && p < n && s.pc[p] == TestGet
      modifies this
      ensures Valid() && s == Apply(old(s), ReadWord(p))
      ensures t == old(word) == word && s.pc[p] == if t == FREE || t == RESET then Init(true) else Idle
    {
      t := word;
      Step(ReadWord(p));
    }

    /** set_lock by PE p.  The wait gives up after `patience` looks, so that the method ends;
        giving up means p is still queued at the wait and its node still says locked. */
    method SetLock(p: nat, patience: nat) returns (held: bool)
      requires Valid() && p < n && s.pc[p].Init?
      modifies this
      ensures Valid()
      ensures held ==> s.pc[p] == Critical(old(s.pc[p].test)) && forall q :: 0 <= q < n && Holding(s.pc[q]) ==> q == p
      ensures !held ==> s.pc[p].Await? && s.pc[p].test == old(s.pc[p].test) && locked[p] != 0
    {
      ResetNext(p);
      Others(p);
      var t := SwapIn(p);
      if t == FREE {
        t := RESET;
      }
      if t.locked != 0 {
        Others(p);
        SetLocked(p);
        Others(p);
        PutLinkTo(p, t.next);
        Others(p);

        // PE p looks at its own node only
        var looks := 0;
        while locked[p] != 0
          invariant Valid() && s.pc[p].Await? && s.pc[p].test == old(s.pc[p].test)
          decreases patience - looks
        {
          if looks >= patience {
            return false;
          }
          looks := looks + 1;
          Others(p);
        }
        LeaveWait(p);
      }
      held := true;
      forall q | 0 <= q < n && Holding(s.pc[q]) ensures q == p { MutualExclusion(s, p, q); }
    }

    /** shmemc_clear_lock by the holder p: quiet, then release.  When it gives up waiting,
        a put of p is still under way, or p has no link to its successor yet. */
    method ClearLock(p: nat, patience: nat) returns (done: bool)
      requires Valid() && p < n && s.pc[p].Critical?
      modifies this
      ensures Valid()
      ensures done ==> s.pc[p] == Idle
      ensures !done ==> (s.pc[p] == Quiet && exists m :: m in flight && m.src == p)
                        || (s.pc[p] == AwaitNext && next[p] < 0)
    {
      BeginClear(p);
      Others(p);

      // puts of the critical section land before the lock goes on
      var looks := 0;
      while exists m :: m in flight && m.src == p
        invariant Valid() && s.pc[p] == Quiet
        decreases patience - looks
      {
        if looks >= patience {
          return false;
        }
        looks := looks + 1;
        Others(p);
      }
      EndQuiet(p);
      Others(p);

      var seen := LoadNext(p);
      if seen == -1 {
        Others(p);
        var t := CasOut(p);
        if t.next == p {
          return true;
        }
        Others(p);
        while next[p] < 0
          invariant Valid() && s.pc[p] == AwaitNext
          decreases patience - looks
        {
          if looks >= patience {
            return false;
          }
          looks := looks + 1;
          Others(p);
        }
        NextSeen(p);
      }
      Others(p);
      PutUnlockToNext(p);
      done := true;
    }

    /** test_lock: 1 when the word read was locked; otherwise set_lock, and 0 once it holds the lock.
        A result below zero means the nested set_lock is still waiting. */
    method TestLock(p: nat, patience: nat) returns (ret: int)
      requires Valid() && p < n && s.pc[p] == TestGet
      modifies this
      ensures Valid() && -1 <= ret <= 1
      ensures ret == 0 ==> s.pc[p] == Critical(true) && forall q :: 0 <= q < n && Holding(s.pc[q]) ==> q == p
      ensures ret == 1 <==> old(word) != FREE && old(word) != RESET
      ensures ret == 1 ==> s.pc[p] == Idle && word == old(word)
      ensures ret == -1 ==> s.pc[p].Await? && s.pc[p].test && locked[p] != 0
    {
      var t := GetWord(p);
      if t == FREE {
        t := RESET;
      }
      if t == RESET {
        Others(p);
        var held := SetLock(p, patience);
        ret := if held then 0 else -1;
      } else {
        ret := 1;
      }
    }
  }
}
