/** The MCS queue lock as a state machine: any number of PEs call set, test and clear,
    every remote access is one step, and every put travels on its own until delivered. */
module McsLock {
  import opened LockWord

  /** A one-sided put that has been issued and not yet delivered. */
  datatype Put =
    | Link(src: nat, dst: int)                          // my rank into my predecessor's node->next
    | Unlock(src: nat, dst: int)                        // zero into my successor's node->locked
    | Data(src: nat, dst: int, value: int, held: bool)  // a client's put; held: issued inside the critical section

  /** Where a PE stands in the code. `test` remembers that test_lock made the call. */
  datatype Pc =
    | Idle
    | TestGet                              // about to read the lock word in test_lock
    | Init(test: bool)                     // set_lock: about to reset node->next
    | Swap(test: bool)                     // about to swap itself into the lock word
    | SetLocked(pred: int, test: bool)     // the word was locked: about to set node->locked
    | SendLink(pred: int, test: bool)      // about to put its rank into the predecessor's node
    | Await(pred: int, test: bool)         // waits for node->locked to become zero
    | Critical(test: bool)
    | Quiet                                // clear_lock called, waits for its puts
    | ReadNext                             // about to look at node->next
    | CasWord                              // about to swap the word back to RESET
    | AwaitNext                            // waits for a successor's link
    | HandOver                             // about to put zero into the successor's node

  predicate InQueue(pc: Pc) {
    pc.SetLocked? || pc.SendLink? || pc.Await? || Holding(pc)
  }

  predicate Holding(pc: Pc) {
    pc.Critical? || pc.Quiet? || pc.ReadNext? || pc.CasWord? || pc.AwaitNext? || pc.HandOver?
  }

  /** The lock word, each PE's node, the puts in flight, and the history:
      `swaps` lists the PEs in the order of their swaps on the word, `released` counts those
      that gave the lock up, `entries` lists the PEs in the order they entered. */
  datatype State = State(
    n: nat,
    word: Word,
    next: seq<int>,
    locked: seq<int>,
    pc: seq<Pc>,
    flight: multiset<Put>,
    swaps: seq<nat>,
    pos: seq<nat>,
    released: nat,
    entries: seq<nat>,
    issued: multiset<Put>,
    landed: multiset<Put>)

  datatype Event =
    | CallSet(p: nat) | CallTest(p: nat) | CallClear(p: nat) | IssueData(p: nat, dst: nat, value: int)
    | ReadWord(p: nat) | InitNode(p: nat) | SwapWord(p: nat) | MarkLocked(p: nat) | PutLink(p: nat) | Wake(p: nat)
    | Flush(p: nat) | LookNext(p: nat) | Cas(p: nat) | SeeNext(p: nat) | PutUnlock(p: nat)
    | Deliver(m: Put)

  ghost predicate Shape(s: State) {
    && s.n > 0
    && |s.next| == |s.locked| == |s.pc| == |s.pos| == s.n
  }

  /** The word starts as the zero the standard asks for, or as FREE, which the code accepts too. */
  ghost predicate Initial(s: State) {
    && Shape(s)
    && s.word in {FREE, RESET}
    && (forall p :: 0 <= p < s.n ==> s.pc[p] == Idle)
    && s.flight == multiset{} && s.issued == multiset{} && s.landed == multiset{}
    && s.swaps == [] && s.entries == [] && s.released == 0
  }

  /** No put of p is still on its way: what quiet waits for. */
  ghost predicate Flushed(s: State, p: nat) {
    forall m :: m in s.flight ==> m.src != p
  }

  ghost predicate Enabled(s: State, e: Event)
    requires Shape(s)
  {
    match e
    case CallSet(p) => p < s.n && s.pc[p] == Idle
    case CallTest(p) => p < s.n && s.pc[p] == Idle
    case CallClear(p) => p < s.n && s.pc[p].Critical?
    case IssueData(p, dst, v) => p < s.n && dst < s.n && (s.pc[p] == Idle || s.pc[p].Critical?)
    case ReadWord(p) => p < s.n && s.pc[p] == TestGet
    case InitNode(p) => p < s.n && s.pc[p].Init?
    case SwapWord(p) => p < s.n && s.pc[p].Swap?
    case MarkLocked(p) => p < s.n && s.pc[p].SetLocked?
    case PutLink(p) => p < s.n && s.pc[p].SendLink?
    case Wake(p) => p < s.n && s.pc[p].Await? && s.locked[p] == 0
    case Flush(p) => p < s.n && s.pc[p] == Quiet && Flushed(s, p)
    case LookNext(p) => p < s.n && s.pc[p] == ReadNext
    case Cas(p) => p < s.n && s.pc[p] == CasWord
    case SeeNext(p) => p < s.n && s.pc[p] == AwaitNext && s.next[p] >= 0
    case PutUnlock(p) => p < s.n && s.pc[p] == HandOver
    case Deliver(m) => m in s.flight && 0 <= m.dst < s.n
  }

  function Send(flight: multiset<Put>, m: Put): multiset<Put> { flight + multiset{m} }

  /** The swap in set_lock: an unlocked word, FREE or RESET, lets the PE in at once;
      a locked one names the predecessor. */
  ghost function SwapStep(s: State, p: nat): State
    requires Shape(s) && Enabled(s, SwapWord(p))
  {
    var t := if s.word == FREE then RESET else s.word;
    var s1 := s.(word := Word(1, p), swaps := s.swaps + [p], pos := s.pos[p := |s.swaps|]);
    if t.locked != 0 then s1.(pc := s.pc[p := SetLocked(t.next, s.pc[p].test)])
    else s1.(pc := s.pc[p := Critical(s.pc[p].test)], entries := s.entries + [p])
  }

  /** The compare-and-swap in clear_lock: the word changes only if it is {1, me},
      and the caller returns when the old word's PE half was its own rank. */
  ghost function CasStep(s: State, p: nat): State
    requires Shape(s) && Enabled(s, Cas(p))
  {
    var s1 := s.(word := if s.word == Word(1, p) then RESET else s.word);
    if s.word.next == p then s1.(pc := s.pc[p := Idle], released := s.released + 1)
    else s1.(pc := s.pc[p := AwaitNext])
  }

  ghost function DeliverStep(s: State, m: Put): State
    requires Shape(s) && Enabled(s, Deliver(m))
  {
    var s1 := s.(flight := s.flight - multiset{m});
    match m
    case Link(src, dst) => s1.(next := s.next[dst := src])
    case Unlock(src, dst) => s1.(locked := s.locked[dst := 0])
    case Data(_, _, _, _) => s1.(landed := s.landed + multiset{m})
  }

  ghost function Apply(s: State, e: Event): (t: State)
    requires Shape(s) && Enabled(s, e)
    ensures Shape(t)
  {
    match e
    case CallSet(p) => s.(pc := s.pc[p := Init(false)])
    case CallTest(p) => s.(pc := s.pc[p := TestGet])
    case CallClear(p) => s.(pc := s.pc[p := Quiet])
    case IssueData(p, dst, v) =>
      var m := Data(p, dst, v, s.pc[p].Critical?);
      s.(flight := Send(s.flight, m), issued := s.issued + multiset{m})
    case ReadWord(p) => s.(pc := s.pc[p := if s.word == FREE || s.word == RESET then Init(true) else Idle])
    case InitNode(p) => s.(next := s.next[p := -1], pc := s.pc[p := Swap(s.pc[p].test)])
    case SwapWord(p) => SwapStep(s, p)
    case MarkLocked(p) => s.(locked := s.locked[p := 1], pc := s.pc[p := SendLink(s.pc[p].pred, s.pc[p].test)])
    case PutLink(p) =>
      s.(flight := Send(s.flight, Link(p, s.pc[p].pred)), pc := s.pc[p := Await(s.pc[p].pred, s.pc[p].test)])
    case Wake(p) => s.(pc := s.pc[p := Critical(s.pc[p].test)], entries := s.entries + [p])
    case Flush(p) => s.(pc := s.pc[p := ReadNext])
    case LookNext(p) => s.(pc := s.pc[p := if s.next[p] == -1 then CasWord else HandOver])
    case Cas(p) => CasStep(s, p)
    case SeeNext(p) => s.(pc := s.pc[p := HandOver])
    case PutUnlock(p) =>
      s.(pc := s.pc[p := Idle], released := s.released + 1, flight := Send(s.flight, Unlock(p, s.next[p])))
    case Deliver(m) => DeliverStep(s, m)
  }

  ghost predicate Next(s: State, t: State) {
    Shape(s) && exists e :: Enabled(s, e) && t == Apply(s, e)
  }
}
