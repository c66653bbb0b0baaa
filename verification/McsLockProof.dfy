/** The invariant of the MCS lock over every program counter and every put in flight,
    and what follows from it: mutual exclusion, first-come order, publication, liveness. */
module McsLockProof {
  import opened Runs
  import opened LockWord
  import opened McsLock

  /** The queue is swaps[released..]: those that swapped themselves in and have not released. */
  ghost predicate QueueEmpty(s: State) { s.released >= |s.swaps| }

  ghost predicate SlotOk(s: State, i: int)
    requires Shape(s)
  {
    s.released <= i < |s.swaps| ==>
      var p := s.swaps[i];
      p < s.n && InQueue(s.pc[p]) && s.pos[p] == i
  }

  ghost predicate PeOk(s: State, p: int)
    requires Shape(s)
  {
    0 <= p < s.n ==>
      && (InQueue(s.pc[p]) ==> s.released <= s.pos[p] < |s.swaps| && s.swaps[s.pos[p]] == p)
      && (Holding(s.pc[p]) ==> s.pos[p] == s.released)
      && (s.pc[p].SetLocked? || s.pc[p].SendLink? ==> s.pos[p] > s.released)
      && (s.pc[p].Swap? ==> s.next[p] == -1)
      && (s.pc[p].SendLink? ==> s.locked[p] == 1)
      && (s.pc[p].AwaitNext? ==> s.released + 1 < |s.swaps|)
      && (s.pc[p].HandOver? ==> s.next[p] != -1)
  }

  /** A waiter's link is still to be issued, on its way, or in its predecessor's node. */
  ghost predicate LinkOk(s: State, i: int)
    requires Shape(s)
  {
    s.released < i < |s.swaps| ==>
      var p, d := s.swaps[i], s.swaps[i - 1];
      && p < s.n && d < s.n
      && match s.pc[p] {
           case SetLocked(pred, _) => pred == d && s.next[d] == -1
           case SendLink(pred, _) => pred == d && s.next[d] == -1
           case Await(pred, _) =>
             && pred == d && s.locked[p] == 1
             && ((s.next[d] == -1 && s.flight[Link(p, d)] == 1) || (s.next[d] == p && s.flight[Link(p, d)] == 0))
           case _ => false
         }
  }

  /** The front of the queue holds the lock, or the put that hands it over is on its way or has arrived. */
  ghost predicate HeadOk(s: State)
    requires Shape(s)
  {
    !QueueEmpty(s) ==>
      var h := s.swaps[s.released];
      h < s.n &&
      (Holding(s.pc[h]) ||
       (s.pc[h].Await? && s.released > 0 &&
        ((s.locked[h] == 1 && s.flight[Unlock(s.swaps[s.released - 1], h)] == 1) || s.locked[h] == 0)))
  }

  ghost predicate TailOk(s: State)
    requires Shape(s)
  {
    if QueueEmpty(s) then s.word == RESET || (s.word == FREE && s.swaps == [])
    else
      var t := s.swaps[|s.swaps| - 1];
      t < s.n && s.word == Word(1, t) && s.next[t] == -1
  }

  ghost predicate PutOk(s: State, m: Put)
    requires Shape(s)
  {
    m in s.flight ==>
      match m
      case Link(src, dst) =>
        src < s.n && 0 <= dst < s.n && s.flight[m] == 1 && s.pc[src].Await? && s.pc[src].pred == dst
          && s.pos[src] > s.released
      case Unlock(src, dst) =>
        && src < s.n && 0 <= dst < s.n && s.flight[m] == 1 && !QueueEmpty(s) && s.released > 0
        && dst == s.swaps[s.released] && src == s.swaps[s.released - 1] && s.pc[dst].Await? && s.locked[dst] == 1
      case Data(src, dst, _, held) =>
        src < s.n && 0 <= dst < s.n && (held ==> s.pc[src].Critical? || s.pc[src].Quiet?)
  }

  ghost predicate HistoryOk(s: State)
    requires Shape(s)
  {
    && s.released <= |s.swaps|
    && s.entries == s.swaps[..s.released] +
         (if !QueueEmpty(s) && s.swaps[s.released] < s.n && Holding(s.pc[s.swaps[s.released]])
          then [s.swaps[s.released]] else [])
    && forall m: Put :: m.Data? ==> s.issued[m] == s.landed[m] + s.flight[m]
  }

  ghost predicate Inv(s: State) {
    && Shape(s)
    && (forall i {:trigger SlotOk(s, i)} :: SlotOk(s, i))
    && (forall p {:trigger PeOk(s, p)} :: PeOk(s, p))
    && (forall i {:trigger LinkOk(s, i)} :: LinkOk(s, i))
    && (forall m {:trigger PutOk(s, m)} :: PutOk(s, m))
    && HeadOk(s) && TailOk(s) && HistoryOk(s)
  }

  lemma InitialInv(s: State)
    requires Initial(s)
    ensures Inv(s)
  {
  }

  lemma KeepCallSet(s: State, p: nat)
    requires Inv(s) && Enabled(s, CallSet(p))
    ensures Inv(Apply(s, CallSet(p)))
  {
    var t := Apply(s, CallSet(p));
    forall i ensures SlotOk(t, i) { assert SlotOk(s, i); }
    forall q ensures PeOk(t, q) { assert PeOk(s, q); }
    forall i ensures LinkOk(t, i) { assert LinkOk(s, i); assert SlotOk(s, i) && SlotOk(s, i - 1); }
    forall m ensures PutOk(t, m) { assert PutOk(s, m); }
  }

  lemma KeepCallTest(s: State, p: nat)
    requires Inv(s) && Enabled(s, CallTest(p))
    ensures Inv(Apply(s, CallTest(p)))
  {
    var t := Apply(s, CallTest(p));
    forall i ensures SlotOk(t, i) { assert SlotOk(s, i); }
    forall q ensures PeOk(t, q) { assert PeOk(s, q); }
    forall i ensures LinkOk(t, i) { assert LinkOk(s, i); assert SlotOk(s, i) && SlotOk(s, i - 1); }
    forall m ensures PutOk(t, m) { assert PutOk(s, m); }
  }

  lemma KeepCallClear(s: State, p: nat)
    requires Inv(s) && Enabled(s, CallClear(p))
    ensures Inv(Apply(s, CallClear(p)))
  {
    var t := Apply(s, CallClear(p));
    forall i ensures SlotOk(t, i) { assert SlotOk(s, i); }
    forall q ensures PeOk(t, q) { assert PeOk(s, q); }
    forall i ensures LinkOk(t, i) { assert LinkOk(s, i); assert SlotOk(s, i) && SlotOk(s, i - 1); }
    forall m ensures PutOk(t, m) { assert PutOk(s, m); }
  }

  lemma KeepIssueData(s: State, p: nat, dst: nat, v: int)
    requires Inv(s) && Enabled(s, IssueData(p, dst, v))
    ensures Inv(Apply(s, IssueData(p, dst, v)))
  {
    var t := Apply(s, IssueData(p, dst, v));
    forall i ensures SlotOk(t, i) { assert SlotOk(s, i); }
    forall q ensures PeOk(t, q) { assert PeOk(s, q); }
    forall i ensures LinkOk(t, i) { assert LinkOk(s, i); assert SlotOk(s, i) && SlotOk(s, i - 1); }
    forall m ensures PutOk(t, m) { assert PutOk(s, m); }
  }

  lemma KeepReadWord(s: State, p: nat)
    requires Inv(s) && Enabled(s, ReadWord(p))
    ensures Inv(Apply(s, ReadWord(p)))
  {
    var t := Apply(s, ReadWord(p));
    forall i ensures SlotOk(t, i) { assert SlotOk(s, i); }
    forall q ensures PeOk(t, q) { assert PeOk(s, q); }
    forall i ensures LinkOk(t, i) { assert LinkOk(s, i); assert SlotOk(s, i) && SlotOk(s, i - 1); }
    forall m ensures PutOk(t, m) { assert PutOk(s, m); }
  }

  lemma KeepInitNode(s: State, p: nat)
    requires Inv(s) && Enabled(s, InitNode(p))
    ensures Inv(Apply(s, InitNode(p)))
  {
    var t := Apply(s, InitNode(p));
    forall i ensures SlotOk(t, i) { assert SlotOk(s, i); }
    forall q ensures PeOk(t, q) { assert PeOk(s, q); }
    forall i ensures LinkOk(t, i) { assert LinkOk(s, i); assert SlotOk(s, i) && SlotOk(s, i - 1); }
    forall m ensures PutOk(t, m) { assert PutOk(s, m); }
  }

  /** The swap finds the word unlocked: the PE enters at once. */
  lemma KeepSwapFree(s: State, p: nat)
    requires Inv(s) && Enabled(s, SwapWord(p)) && QueueEmpty(s)
    ensures Inv(Apply(s, SwapWord(p)))
  {
    var t := Apply(s, SwapWord(p));
    assert PeOk(s, p);
    assert s.swaps[..s.released] == s.swaps && t.swaps[..t.released] == s.swaps;
    forall i ensures SlotOk(t, i) { assert SlotOk(s, i); }
    forall q ensures PeOk(t, q) { assert PeOk(s, q); }
    forall i ensures LinkOk(t, i) {}
    forall m ensures PutOk(t, m) { assert PutOk(s, m) && PeOk(s, m.src); }
  }

  /** The swap finds the word locked by the tail of the queue: the PE queues behind it. */
  lemma SwapLink(s: State, p: nat, i: int)
    requires Inv(s) && Enabled(s, SwapWord(p)) && !QueueEmpty(s)
    ensures LinkOk(Apply(s, SwapWord(p)), i)
  {
    assert PeOk(s, p) && SlotOk(s, |s.swaps| - 1);
    assert LinkOk(s, i) && SlotOk(s, i) && SlotOk(s, i - 1);
  }

  lemma SwapQueue(s: State, p: nat)
    requires Inv(s) && Enabled(s, SwapWord(p)) && !QueueEmpty(s)
    ensures var t := Apply(s, SwapWord(p)); HeadOk(t) && TailOk(t) && HistoryOk(t)
  {
    assert PeOk(s, p) && SlotOk(s, |s.swaps| - 1);
    var t := Apply(s, SwapWord(p));
    assert t.swaps[..t.released] == s.swaps[..s.released];
  }

  lemma KeepSwapLocked(s: State, p: nat)
    requires Inv(s) && Enabled(s, SwapWord(p)) && !QueueEmpty(s)
    ensures Inv(Apply(s, SwapWord(p)))
  {
    var t := Apply(s, SwapWord(p));
    assert PeOk(s, p) && SlotOk(s, |s.swaps| - 1);
    SwapQueue(s, p);
    forall i ensures SlotOk(t, i) { assert SlotOk(s, i); }
    forall q ensures PeOk(t, q) { assert PeOk(s, q); }
    forall i ensures LinkOk(t, i) { SwapLink(s, p, i); }
    forall m ensures PutOk(t, m) { assert PutOk(s, m); }
  }

  lemma KeepMarkLocked(s: State, p: nat)
    requires Inv(s) && Enabled(s, MarkLocked(p))
    ensures Inv(Apply(s, MarkLocked(p)))
  {
    var t := Apply(s, MarkLocked(p));
    forall i ensures SlotOk(t, i) { assert SlotOk(s, i); }
    forall q ensures PeOk(t, q) { assert PeOk(s, q); }
    forall i ensures LinkOk(t, i) { assert LinkOk(s, i); assert SlotOk(s, i) && SlotOk(s, i - 1); }
    forall m ensures PutOk(t, m) { assert PutOk(s, m); }
  }

  lemma KeepPutLink(s: State, p: nat)
    requires Inv(s) && Enabled(s, PutLink(p))
    ensures Inv(Apply(s, PutLink(p)))
  {
    var t := Apply(s, PutLink(p));
    assert PeOk(s, p) && SlotOk(s, s.pos[p]) && LinkOk(s, s.pos[p]) && PutOk(s, Link(p, s.pc[p].pred));
    forall i ensures SlotOk(t, i) { assert SlotOk(s, i); }
    forall q ensures PeOk(t, q) { assert PeOk(s, q); }
    forall i ensures LinkOk(t, i) { assert LinkOk(s, i); assert SlotOk(s, i) && SlotOk(s, i - 1); }
    forall m ensures PutOk(t, m) { assert PutOk(s, m); }
  }

  lemma KeepWake(s: State, p: nat)
    requires Inv(s) && Enabled(s, Wake(p))
    ensures Inv(Apply(s, Wake(p)))
  {
    var t := Apply(s, Wake(p));
    assert PeOk(s, p) && LinkOk(s, s.pos[p]);
    forall i ensures SlotOk(t, i) { assert SlotOk(s, i); }
    forall q ensures PeOk(t, q) { assert PeOk(s, q); }
    forall i ensures LinkOk(t, i) { assert LinkOk(s, i); assert SlotOk(s, i) && SlotOk(s, i - 1); }
    forall m ensures PutOk(t, m) { assert PutOk(s, m); }
  }

  lemma KeepFlush(s: State, p: nat)
    requires Inv(s) && Enabled(s, Flush(p))
    ensures Inv(Apply(s, Flush(p)))
  {
    var t := Apply(s, Flush(p));
    forall i ensures SlotOk(t, i) { assert SlotOk(s, i); }
    forall q ensures PeOk(t, q) { assert PeOk(s, q); }
    forall i ensures LinkOk(t, i) { assert LinkOk(s, i); assert SlotOk(s, i) && SlotOk(s, i - 1); }
    forall m ensures PutOk(t, m) { assert PutOk(s, m); }
  }

  lemma KeepLookNext(s: State, p: nat)
    requires Inv(s) && Enabled(s, LookNext(p))
    ensures Inv(Apply(s, LookNext(p)))
  {
    var t := Apply(s, LookNext(p));
    forall i ensures SlotOk(t, i) { assert SlotOk(s, i); }
    forall q ensures PeOk(t, q) { assert PeOk(s, q); }
    forall i ensures LinkOk(t, i) { assert LinkOk(s, i); assert SlotOk(s, i) && SlotOk(s, i - 1); }
    forall m ensures PutOk(t, m) { assert PutOk(s, m); }
  }

  lemma CasLink(s: State, p: nat, i: int)
    requires Inv(s) && Enabled(s, Cas(p))
    ensures LinkOk(Apply(s, Cas(p)), i)
  {
    assert LinkOk(s, i) && SlotOk(s, i) && SlotOk(s, i - 1) && PeOk(s, p);
  }

  lemma CasPut(s: State, p: nat, m: Put)
    requires Inv(s) && Enabled(s, Cas(p))
    ensures PutOk(Apply(s, Cas(p)), m)
  {
    assert PutOk(s, m) && PeOk(s, m.src) && PeOk(s, p) && SlotOk(s, |s.swaps| - 1);
    assert SlotOk(s, s.released + 1) && LinkOk(s, s.released + 1);
  }

  lemma CasQueue(s: State, p: nat)
    requires Inv(s) && Enabled(s, Cas(p))
    ensures var t := Apply(s, Cas(p)); HeadOk(t) && TailOk(t) && HistoryOk(t)
  {
    assert PeOk(s, p) && SlotOk(s, s.released + 1) && LinkOk(s, s.released + 1) && SlotOk(s, |s.swaps| - 1);
  }

  lemma CasPe(s: State, p: nat, q: int)
    requires Inv(s) && Enabled(s, Cas(p))
    ensures PeOk(Apply(s, Cas(p)), q)
  {
    assert PeOk(s, p) && SlotOk(s, |s.swaps| - 1) && PeOk(s, q);
  }

  lemma KeepCas(s: State, p: nat)
    requires Inv(s) && Enabled(s, Cas(p))
    ensures Inv(Apply(s, Cas(p)))
  {
    var t := Apply(s, Cas(p));
    CasQueue(s, p);
    forall i ensures SlotOk(t, i) { assert SlotOk(s, i); }
    forall q ensures PeOk(t, q) { CasPe(s, p, q); }
    forall i ensures LinkOk(t, i) { CasLink(s, p, i); }
    forall m ensures PutOk(t, m) { CasPut(s, p, m); }
  }

  lemma KeepSeeNext(s: State, p: nat)
    requires Inv(s) && Enabled(s, SeeNext(p))
    ensures Inv(Apply(s, SeeNext(p)))
  {
    var t := Apply(s, SeeNext(p));
    forall i ensures SlotOk(t, i) { assert SlotOk(s, i); }
    forall q ensures PeOk(t, q) { assert PeOk(s, q); }
    forall i ensures LinkOk(t, i) { assert LinkOk(s, i); assert SlotOk(s, i) && SlotOk(s, i - 1); }
    forall m ensures PutOk(t, m) { assert PutOk(s, m); }
  }

  lemma UnlockLink(s: State, p: nat, i: int)
    requires Inv(s) && Enabled(s, PutUnlock(p))
    ensures LinkOk(Apply(s, PutUnlock(p)), i)
  {
    assert LinkOk(s, i) && SlotOk(s, i) && SlotOk(s, i - 1) && PeOk(s, p);
  }

  lemma UnlockPut(s: State, p: nat, m: Put)
    requires Inv(s) && Enabled(s, PutUnlock(p))
    ensures PutOk(Apply(s, PutUnlock(p)), m)
  {
    assert PeOk(s, p) && SlotOk(s, s.released) && SlotOk(s, s.released + 1) && LinkOk(s, s.released + 1);
    assert PutOk(s, Unlock(p, s.next[p])) && PutOk(s, m) && PeOk(s, m.src);
  }

  lemma UnlockPe(s: State, p: nat, q: int)
    requires Inv(s) && Enabled(s, PutUnlock(p))
    ensures PeOk(Apply(s, PutUnlock(p)), q)
  {
    assert PeOk(s, p) && SlotOk(s, s.released) && SlotOk(s, s.released + 1) && LinkOk(s, s.released + 1);
    assert PeOk(s, q);
  }

  lemma UnlockQueue(s: State, p: nat)
    requires Inv(s) && Enabled(s, PutUnlock(p))
    ensures var t := Apply(s, PutUnlock(p)); HeadOk(t) && TailOk(t) && HistoryOk(t)
  {
    assert PeOk(s, p) && SlotOk(s, s.released) && SlotOk(s, s.released + 1) && LinkOk(s, s.released + 1);
    assert PutOk(s, Unlock(p, s.next[p]));
    assert s.swaps[..s.released + 1] == s.swaps[..s.released] + [p];
  }

  lemma KeepPutUnlock(s: State, p: nat)
    requires Inv(s) && Enabled(s, PutUnlock(p))
    ensures Inv(Apply(s, PutUnlock(p)))
  {
    var t := Apply(s, PutUnlock(p));
    UnlockQueue(s, p);
    forall i ensures SlotOk(t, i) { assert SlotOk(s, i) && PeOk(s, p); }
    forall q ensures PeOk(t, q) { UnlockPe(s, p, q); }
    forall i ensures LinkOk(t, i) { UnlockLink(s, p, i); }
    forall m ensures PutOk(t, m) { UnlockPut(s, p, m); }
  }

  lemma LandLink(s: State, d: Put, i: int)
    requires Inv(s) && Enabled(s, Deliver(d)) && d.Link?
    ensures LinkOk(Apply(s, Deliver(d)), i)
  {
    assert PutOk(s, d) && PeOk(s, d.src) && LinkOk(s, s.pos[d.src]) && SlotOk(s, s.pos[d.src] - 1);
    assert LinkOk(s, i) && SlotOk(s, i) && SlotOk(s, i - 1);
  }

  lemma LandLinkPut(s: State, d: Put, m: Put)
    requires Inv(s) && Enabled(s, Deliver(d)) && d.Link?
    ensures PutOk(Apply(s, Deliver(d)), m)
  {
    assert PutOk(s, m);
  }

  lemma LandLinkPe(s: State, d: Put, q: int)
    requires Inv(s) && Enabled(s, Deliver(d)) && d.Link?
    ensures PeOk(Apply(s, Deliver(d)), q)
  {
    assert PutOk(s, d) && PeOk(s, d.src) && LinkOk(s, s.pos[d.src]) && SlotOk(s, s.pos[d.src] - 1);
    assert PeOk(s, q);
  }

  lemma LandLinkQueue(s: State, d: Put)
    requires Inv(s) && Enabled(s, Deliver(d)) && d.Link?
    ensures var t := Apply(s, Deliver(d)); HeadOk(t) && TailOk(t) && HistoryOk(t)
  {
    assert PutOk(s, d) && PeOk(s, d.src) && LinkOk(s, s.pos[d.src]) && SlotOk(s, s.pos[d.src] - 1)
      && SlotOk(s, |s.swaps| - 1);
  }

  lemma KeepDeliverLink(s: State, d: Put)
    requires Inv(s) && Enabled(s, Deliver(d)) && d.Link?
    ensures Inv(Apply(s, Deliver(d)))
  {
    var t := Apply(s, Deliver(d));
    LandLinkQueue(s, d);
    forall i ensures SlotOk(t, i) { assert SlotOk(s, i); }
    forall q ensures PeOk(t, q) { LandLinkPe(s, d, q); }
    forall i ensures LinkOk(t, i) { LandLink(s, d, i); }
    forall m ensures PutOk(t, m) { LandLinkPut(s, d, m); }
  }

  lemma KeepDeliverUnlock(s: State, d: Put)
    requires Inv(s) && Enabled(s, Deliver(d)) && d.Unlock?
    ensures Inv(Apply(s, Deliver(d)))
  {
    var t := Apply(s, Deliver(d));
    assert PutOk(s, d);
    forall i ensures SlotOk(t, i) { assert SlotOk(s, i); }
    forall q ensures PeOk(t, q) { assert PeOk(s, q); }
    forall i ensures LinkOk(t, i) { assert LinkOk(s, i) && SlotOk(s, i) && SlotOk(s, s.released); }
    forall m ensures PutOk(t, m) { assert PutOk(s, m); }
  }

  lemma KeepDeliverData(s: State, d: Put)
    requires Inv(s) && Enabled(s, Deliver(d)) && d.Data?
    ensures Inv(Apply(s, Deliver(d)))
  {
    var t := Apply(s, Deliver(d));
    forall i ensures SlotOk(t, i) { assert SlotOk(s, i); }
    forall q ensures PeOk(t, q) { assert PeOk(s, q); }
    forall i ensures LinkOk(t, i) { assert LinkOk(s, i); }
    forall m ensures PutOk(t, m) { assert PutOk(s, m); }
  }

  lemma StepKeepsInv(s: State, t: State)
    requires Inv(s) && Next(s, t)
    ensures Inv(t)
  {
    var e :| Enabled(s, e) && t == Apply(s, e);
    match e
    case CallSet(p) => KeepCallSet(s, p);
    case CallTest(p) => KeepCallTest(s, p);
    case CallClear(p) => KeepCallClear(s, p);
    case IssueData(p, dst, v) => KeepIssueData(s, p, dst, v);
    case ReadWord(p) => KeepReadWord(s, p);
    case InitNode(p) => KeepInitNode(s, p);
    case SwapWord(p) => if QueueEmpty(s) { KeepSwapFree(s, p); } else { KeepSwapLocked(s, p); }
    case MarkLocked(p) => KeepMarkLocked(s, p);
    case PutLink(p) => KeepPutLink(s, p);
    case Wake(p) => KeepWake(s, p);
    case Flush(p) => KeepFlush(s, p);
    case LookNext(p) => KeepLookNext(s, p);
    case Cas(p) => KeepCas(s, p);
    case SeeNext(p) => KeepSeeNext(s, p);
    case PutUnlock(p) => KeepPutUnlock(s, p);
    case Deliver(m) =>
      match m
      case Link(_, _) => KeepDeliverLink(s, m);
      case Unlock(_, _) => KeepDeliverUnlock(s, m);
      case Data(_, _, _, _) => KeepDeliverData(s, m);
  }

  ghost predicate Reached(s: State) { Reachable(Initial, Next, s) }

  lemma ReachedInv(s: State)
    requires Reached(s)
    ensures Inv(s)
  {
    forall t | Initial(t) ensures Inv(t) { InitialInv(t); }
    forall t, u | Inv(t) && Next(t, u) ensures Inv(u) { StepKeepsInv(t, u); }
    ReachableInvariant(Initial, Next, Inv, s);
  }

  // ---------------------------------------------------------------- safety

  /** At most one PE is past the acquisition and not yet past the release. */
  lemma MutualExclusion(s: State, p: nat, q: nat)
    requires Reached(s) && p < s.n && q < s.n
    requires Shape(s) && Holding(s.pc[p]) && Holding(s.pc[q])
    ensures p == q
  {
    ReachedInv(s);
    SameHolder(s, p, q);
  }

  /** PEs enter in the order of their swaps on the word, each swap at most one entry,
      and only the front of the queue may be missing from the entries: nobody is overtaken. */
  lemma FirstComeFirstServed(s: State)
    requires Reached(s)
    ensures s.entries <= s.swaps
    ensures s.released <= |s.entries| <= s.released + 1
  {
    ReachedInv(s);
  }

  /** Between two releases the word is {1, tail of the queue}; with nobody queued it is RESET or FREE. */
  lemma WordNamesTail(s: State)
    requires Reached(s)
    ensures s.released <= |s.swaps|
    ensures s.released < |s.swaps| ==> s.word == Word(1, s.swaps[|s.swaps| - 1])
    ensures s.released == |s.swaps| <==> s.word == RESET || s.word == FREE
    ensures s.word == FREE ==> s.swaps == []
  {
    ReachedInv(s);
  }

  /** The release test looks only at the PE half of the old word, and that is enough:
      it equals the caller's rank exactly when the compare-and-swap took effect,
      and exactly when nobody queues behind the caller.  Otherwise the next PE in line
      has its link still to issue, in flight, or already in the caller's node. */
  lemma ReleaseTestExact(s: State, p: nat)
    requires Reached(s) && Shape(s) && Enabled(s, Cas(p))
    ensures s.word.next == p <==> s.word == Word(1, p)
    ensures s.word.next == p <==> Apply(s, Cas(p)).word == RESET
    ensures s.word.next == p <==> s.released + 1 == |s.swaps|
    ensures s.word.next != p ==>
              s.released + 1 < |s.swaps| &&
              var q := s.swaps[s.released + 1];
              q < s.n && (s.pc[q].SetLocked? || s.pc[q].SendLink? || Link(q, p) in s.flight || s.next[p] == q)
  {
    ReachedInv(s);
    assert PeOk(s, p) && SlotOk(s, |s.swaps| - 1) && LinkOk(s, s.released + 1);
  }

  /** The put that hands the lock over always goes to the next PE in swap order, which waits for it. */
  lemma HandOverToSuccessor(s: State, p: nat)
    requires Reached(s) && Shape(s) && Enabled(s, PutUnlock(p))
    ensures s.released + 1 < |s.swaps| && 0 <= s.next[p] < s.n && s.next[p] == s.swaps[s.released + 1]
            && s.pc[s.next[p]].Await?
  {
    ReachedInv(s);
    assert PeOk(s, p) && SlotOk(s, s.released + 1) && LinkOk(s, s.released + 1);
  }

  /** Only a swap on an unlocked word and the end of a wait lead into the critical section. */
  lemma EntryEvents(s: State, e: Event, p: nat)
    requires Shape(s) && Enabled(s, e) && p < s.n
    requires !s.pc[p].Critical? && Apply(s, e).pc[p].Critical?
    ensures e == SwapWord(p) || e == Wake(p)
  {
  }

  /** Publication: when a PE enters, every put any PE ever issued inside a critical section has landed. */
  lemma EntrySeesEarlierPuts(s: State, e: Event, p: nat)
    requires Reached(s) && Shape(s) && Enabled(s, e) && p < s.n
    requires !s.pc[p].Critical? && Apply(s, e).pc[p].Critical?
    ensures forall m: Put :: m.Data? && m.held ==> s.issued[m] == s.landed[m]
  {
    EntryEvents(s, e, p);
    ReachedInv(s);
    var t := Apply(s, e);
    assert Next(s, t);
    StepKeepsInv(s, t);
    forall m: Put | m.Data? && m.held
      ensures s.issued[m] == s.landed[m]
    {
      if m in s.flight {
        assert PutOk(s, m);
        SameHolder(t, p, m.src);
      }
    }
  }

  lemma SameHolder(s: State, p: nat, q: nat)
    requires Inv(s) && p < s.n && q < s.n && Holding(s.pc[p]) && Holding(s.pc[q])
    ensures p == q
  {
    assert PeOk(s, p) && PeOk(s, q);
  }

  // ------------------------------------------------------------- liveness

  function Rank(pc: Pc): nat {
    match pc
    case Idle => 0
    case HandOver => 2
    case AwaitNext => 3
    case CasWord => 4
    case ReadNext => 5
    case Quiet => 6
    case Critical(_) => 7
    case Await(_, _) => 8
    case SendLink(_, _) => 10
    case SetLocked(_, _) => 11
    case Swap(_) => 12
    case Init(_) => 13
    case TestGet => 14
  }

  ghost function Ranks(s: State): (r: seq<nat>)
    requires Shape(s)
  {
    seq(s.n, p requires 0 <= p < s.n && Shape(s) => Rank(s.pc[p]))
  }

  /** What is left to do for the calls already made. */
  ghost function Remaining(s: State): nat {
    if Shape(s) then Sum(Ranks(s)) + |s.flight| else 0
  }

  /** A step that is not a new request: anything but a new set or test call or a new client put. */
  ghost predicate NextService(s: State, t: State) {
    Shape(s) && exists e :: Enabled(s, e) && !(e.CallSet? || e.CallTest? || e.IssueData?) && t == Apply(s, e)
  }

  lemma RankDrops(s: State, t: State, p: nat, e: Event)
    requires Shape(s) && Enabled(s, e) && t == Apply(s, e) && !(e.CallSet? || e.CallTest? || e.IssueData? || e.Deliver?)
    requires p == e.p
    ensures Sum(Ranks(t)) + |t.flight| < Sum(Ranks(s)) + |s.flight|
  {
    OneRank(s, t, p);
    assert t.pc == s.pc[p := t.pc[p]];
  }

  lemma OneRank(s: State, t: State, p: nat)
    requires Shape(s) && Shape(t) && t.n == s.n && p < s.n && t.pc == s.pc[p := t.pc[p]]
    ensures Sum(Ranks(t)) == Sum(Ranks(s)) - Rank(s.pc[p]) + Rank(t.pc[p])
  {
    assert Ranks(t) == Ranks(s)[p := Rank(t.pc[p])];
    SumUpdate(Ranks(s), p, Rank(t.pc[p]));
  }

  lemma ServiceLowers(s: State, t: State)
    requires NextService(s, t)
    ensures Next(s, t) && Remaining(t) < Remaining(s)
  {
    var e :| Enabled(s, e) && !(e.CallSet? || e.CallTest? || e.IssueData?) && t == Apply(s, e);
    if e.Deliver? {
      assert Ranks(t) == Ranks(s);
    } else {
      RankDrops(s, t, e.p, e);
    }
  }

  ghost predicate AllDone(s: State) {
    Shape(s) && (forall p :: 0 <= p < s.n ==> s.pc[p] == Idle) && s.flight == multiset{}
  }

  /** The front of the queue, or the PE behind it, can always move once nothing is in flight. */
  lemma FrontMoves(s: State) returns (e: Event)
    requires Inv(s) && !QueueEmpty(s) && s.flight == multiset{}
    ensures Enabled(s, e) && !(e.CallSet? || e.CallTest? || e.IssueData?)
  {
    var h := s.swaps[s.released];
    assert SlotOk(s, s.released) && PeOk(s, h) && SlotOk(s, s.released + 1) && LinkOk(s, s.released + 1);
    match s.pc[h]
    case Critical(_) => e := CallClear(h);
    case Quiet => e := Flush(h);
    case ReadNext => e := LookNext(h);
    case CasWord => e := Cas(h);
    case HandOver => e := PutUnlock(h);
    case Await(_, _) => e := Wake(h);
    case AwaitNext =>
      var q := s.swaps[s.released + 1];
      match s.pc[q] {
        case SetLocked(_, _) => e := MarkLocked(q);
        case SendLink(_, _) => e := PutLink(q);
        case Await(_, _) => e := SeeNext(h);
      }
  }

  /** No deadlock: unless every PE is idle and nothing is in flight, some step other than a new request can be taken. */
  lemma NoDeadlock(s: State)
    requires Reached(s) && !AllDone(s)
    ensures exists t :: NextService(s, t)
  {
    ReachedInv(s);
    var e: Event;
    if m :| m in s.flight {
      assert PutOk(s, m);
      e := Deliver(m);
    } else if !QueueEmpty(s) {
      assert s.flight == multiset{};
      e := FrontMoves(s);
    } else {
      assert s.flight == multiset{};
      var p :| 0 <= p < s.n && s.pc[p] != Idle;
      assert PeOk(s, p);
      e := if s.pc[p].TestGet? then ReadWord(p) else if s.pc[p].Init? then InitNode(p) else SwapWord(p);
    }
    assert NextService(s, Apply(s, e));
  }

  /** Every call is served: from a reachable state, whatever the schedule, the work already requested
      ends within Remaining(s) steps, and a path that cannot be extended ends with every PE idle,
      nothing in flight, and the word free again. */
  lemma RequestsAreServed(path: seq<State>)
    requires IsPath(NextService, path) && Reached(path[0])
    ensures |path| - 1 <= Remaining(path[0])
    ensures var s := path[|path| - 1];
            (forall t :: !NextService(s, t)) ==>
              AllDone(s) && s.entries == s.swaps && (s.word == RESET || s.word == FREE)
  {
    forall s, t {:trigger NextService(s, t)} | Reached(s) && NextService(s, t)
      ensures Reached(t) && Remaining(t) < Remaining(s)
    {
      ServiceLowers(s, t);
      ReachableStep(Initial, Next, s, t);
    }
    MeasureBoundsPath(NextService, Reached, Remaining, path);
    var s := path[|path| - 1];
    if forall t :: !NextService(s, t) {
      if !AllDone(s) { NoDeadlock(s); }
      ReachedInv(s);
      assert SlotOk(s, s.released);
    }
  }

  // ------------------------------------------------------------ test_lock

  /** test_lock reads the word and only then swaps: the call gets the lock without waiting
      exactly when nobody holds or awaits it at the moment of the swap. */
  lemma SwapEntersIffFree(s: State, p: nat)
    requires Reached(s) && Shape(s) && Enabled(s, SwapWord(p))
    ensures Apply(s, SwapWord(p)).pc[p].Critical? <==> s.released == |s.swaps|
    ensures Apply(s, SwapWord(p)).pc[p].SetLocked? <==> s.word.locked == 1
  {
    ReachedInv(s);
  }

  /** Another PE can get in between the two: a test_lock call that read a free word can be made to wait. */
  lemma TestLockCanWait() returns (s: State)
    ensures Reached(s) && Shape(s) && s.n == 2
    ensures s.pc[0].Critical? && s.pc[1] == SetLocked(0, true)
  {
    s := State(2, RESET, [0, 0], [0, 0], [Idle, Idle], multiset{}, [], [0, 0], 0, [], multiset{}, multiset{});
    ReachableInit(Initial, Next, s);
    s := Take(s, CallTest(1));
    s := Take(s, ReadWord(1));
    s := SetFirst(s);
    s := SwapSecond(s);
  }

  lemma SwapSecond(s: State) returns (t: State)
    requires Reached(s) && Shape(s) && s.n == 2 && s.pc == [Critical(false), Init(true)] && s.word == Word(1, 0)
             && s.swaps == [0]
    ensures Reached(t) && Shape(t) && t.n == 2 && t.pc == [Critical(false), SetLocked(0, true)]
  {
    t := Take(s, InitNode(1));
    t := Take(t, SwapWord(1));
  }

  lemma SetFirst(s: State) returns (t: State)
    requires Reached(s) && Shape(s) && s.n == 2 && s.pc == [Idle, Init(true)] && s.word == RESET && s.swaps == []
    ensures Reached(t) && Shape(t) && t.n == 2 && t.pc == [Critical(false), Init(true)] && t.word == Word(1, 0)
            && t.swaps == [0]
  {
    t := Take(s, CallSet(0));
    t := Take(t, InitNode(0));
    t := Take(t, SwapWord(0));
  }

  lemma Take(s: State, e: Event) returns (t: State)
    requires Reached(s) && Shape(s) && Enabled(s, e)
    ensures Reached(t) && Shape(t) && t == Apply(s, e)
  {
    t := Apply(s, e);
    assert Next(s, t);
    ReachableStep(Initial, Next, s, t);
  }

  /** With at most 32768 PEs neither 16-bit half of the word is ever truncated. */
  lemma WordFits(s: State)
    requires Reached(s) && s.n <= 0x8000
    ensures IsWord(s.word)
  {
    ReachedInv(s);
    if !QueueEmpty(s) { RankFits(s.swaps[|s.swaps| - 1]); }
  }
}
