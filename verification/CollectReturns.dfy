/** Exactly when every PE that returns from collect has the concatenation: for each barrier and all contributions. */
module CollectReturns {
  import opened Runs
  import opened AnyBarrier
  import opened CollectRun
  import opened CollectSums
  import opened CollectExactly
  import opened DissemLeaves
  import opened Bits
  import opened Lists
  import C = Collect
  import B = BarrierSpec
  import D = BarrierDissem

  // ------------------------------------------------------------- sends

  /** Nobody sends to a PE that is not there. */
  ghost predicate Counted(c: C.State) {
    && C.Shape(c) && (forall p: nat :: p < |c.sources| ==> C.Sent(c, p) <= |c.sources|)
    && forall m :: m in c.flight ==> m.dst < |c.sources|
  }

  lemma RunCounted(c: C.State, q: nat)
    requires Counted(c) && C.Enabled(c, C.Run(q))
    ensures Counted(C.Apply(c, C.Run(q)))
  {
    var d := C.Apply(c, C.Run(q));
    assert C.Sent(c, q) <= |c.sources|;
    forall p: nat | p < |d.sources| ensures C.Sent(d, p) <= |d.sources| { assert C.Sent(c, p) <= |c.sources|; }
  }

  lemma LandCounted(c: C.State, m: C.Put)
    requires Counted(c) && C.Enabled(c, C.Deliver(m))
    ensures Counted(C.Apply(c, C.Deliver(m)))
  {
    var d := C.Apply(c, C.Deliver(m));
    forall p: nat | p < |d.sources| ensures C.Sent(d, p) <= |d.sources| { assert C.Sent(c, p) <= |c.sources|; }
  }

  // ------------------------------------------------------- the first element of a target

  /** The first element of every target is what it was at the call, and will be as far as puts on their way go. */
  ghost predicate Untouched(c: C.State) {
    && C.Shape(c)
    && (forall p :: 0 <= p < |c.target| ==> |c.target[p]| > 0 && c.target[p][0] == c.init[p][0])
    && forall m :: m in c.flight && m.Slice? && m.data != [] ==> m.off >= 1
  }

  lemma RunUntouched(c: C.State, q: nat)
    requires Untouched(c) && C.Enabled(c, C.Run(q))
    requires c.pc[q].Send? && c.sources[q] != [] ==> c.pc[q].off >= 1
    ensures Untouched(C.Apply(c, C.Run(q)))
  {
  }

  lemma LandUntouched(c: C.State, m: C.Put)
    requires Untouched(c) && C.Enabled(c, C.Deliver(m))
    ensures Untouched(C.Apply(c, C.Deliver(m)))
  {
  }

  /** Every PE but a first one that contributes nothing has a sum that is at least one. */
  ghost predicate Positive(sources: seq<seq<int>>, lifted: set<nat>) {
    forall p: nat :: p < |sources| && (p > 0 || sources[0] != []) ==> Low(sources, lifted, p) >= 1
  }

  // ------------------------------------------------------------- up to the barrier

  /** Nobody is back, and the first places will not be written to. */
  ghost predicate Fine(c: C.State, lifted: set<nat>) {
    && Counted(c) && !c.fixed && Untouched(c) && Positive(c.sources, lifted) && |c.sources| > 1
    && forall p :: 0 <= p < |c.sources| ==> c.pc[p] != C.Done
  }

  lemma RunFine(c: C.State, lifted: set<nat>, q: nat)
    requires Fine(c, lifted) && Sums(c, lifted) && C.Enabled(c, C.Run(q)) && !c.pc[q].Closing?
    ensures Fine(C.Apply(c, C.Run(q)), lifted)
    ensures C.Remaining(C.Apply(c, C.Run(q)), 0) < C.Remaining(c, 0)
  {
    RunCounted(c, q);
    FarEnough(c, lifted, q);
    RunUntouched(c, q);
    C.RunCosts(c, q, 0);
  }

  lemma FarEnough(c: C.State, lifted: set<nat>, q: nat)
    requires Fine(c, lifted) && Sums(c, lifted) && q < |c.sources|
    ensures c.pc[q].Send? && c.sources[q] != [] ==> c.pc[q].off >= 1
    ensures C.Sent(c, q) <= |c.sources|
  {
    assert SumOk(c, lifted, q) && C.Sent(c, q) <= |c.sources|;
  }

  lemma LandFine(c: C.State, lifted: set<nat>, m: C.Put)
    requires Fine(c, lifted) && C.Enabled(c, C.Deliver(m))
    ensures Fine(C.Apply(c, C.Deliver(m)), lifted)
    ensures C.Remaining(C.Apply(c, C.Deliver(m)), 0) < C.Remaining(c, 0)
  {
    LandCounted(c, m);
    LandUntouched(c, m);
    C.DeliverLowers(c, m, 0);
  }

  /** The poke of round 0 for h is lost. */
  ghost predicate Lost(b: Bar, h: nat) {
    b.Dissem? && D.Shape(b.d) && D.Reached(WithPoke(b.d, h))
  }

  /** A run in which the poke for h was lost, and nothing but calls has happened in the barrier since. */
  ghost predicate Hit(i: State, s: State, lifted: set<nat>, h: nat) {
    From(i, s) && Known(s, lifted) && s.hit == {h} && Fine(s.c, lifted) && Lost(s.bar, h)
  }

  lemma OwnStays(i: State, s: State, lifted: set<nat>, h: nat, o: C.Event) returns (t: State)
    requires Hit(i, s, lifted, h) && CollectRun.Enabled(s, Own(o))
    ensures Hit(i, t, lifted, h) && C.Remaining(t.c, 0) < C.Remaining(s.c, 0)
  {
    t := Go(i, s, Own(o));
    assert CollectRun.Next(s, t);
    StepKeeps(s, t, lifted);
    if o.Run? { RunFine(s.c, lifted, o.p); } else { LandFine(s.c, lifted, o.m); }
  }

  lemma EnterStays(i: State, s: State, lifted: set<nat>, h: nat, q: nat) returns (t: State)
    requires Hit(i, s, lifted, h) && CollectRun.Enabled(s, Enter(q))
    ensures Hit(i, t, lifted, h) && C.Remaining(t.c, 0) < C.Remaining(s.c, 0)
  {
    t := Go(i, s, Enter(q));
    assert CollectRun.Next(s, t);
    StepKeeps(s, t, lifted);
    RunFine(s.c, lifted, q);
    PokeStaysLost(s.bar.d, D.Call(q), h);
  }

  lemma PokeStaysLost(d: D.State, e: D.Event, h: nat)
    requires D.Shape(d) && D.Reached(WithPoke(d, h)) && D.Enabled(d, e)
    ensures D.Reached(WithPoke(D.Apply(d, e), h))
  {
    LostOrNeverDelivered(d, e, h);
    assert D.Next(WithPoke(d, h), WithPoke(D.Apply(d, e), h));
    ReachableStep(D.Initial, D.Next, WithPoke(d, h), WithPoke(D.Apply(d, e), h));
  }

  /** The first PE that is not in the barrier, when nothing is on its way, can move. */
  lemma FirstMoves(c: C.State, lifted: set<nat>, q: nat)
    requires Fine(c, lifted) && Sums(c, lifted) && c.flight == multiset{} && q < |c.sources| && !c.pc[q].Closing?
    requires forall p :: 0 <= p < q ==> c.pc[p].Closing?
    ensures C.Enabled(c, C.Run(q))
  {
    assert SumOk(c, lifted, q);
  }

  lemma {:induction false} FirstOutside(c: C.State, k: nat) returns (q: nat)
    requires C.Shape(c) && k < |c.sources| && !c.pc[k].Closing?
    ensures q <= k && !c.pc[q].Closing? && forall p :: 0 <= p < q ==> c.pc[p].Closing?
  {
    if p: nat :| p < k && !c.pc[p].Closing? { q := FirstOutside(c, p); } else { q := k; }
  }

  lemma Onward(i: State, s: State, lifted: set<nat>, h: nat, k: nat) returns (t: State)
    requires Hit(i, s, lifted, h) && k < |s.c.sources| && !s.c.pc[k].Closing?
    ensures Hit(i, t, lifted, h) && C.Remaining(t.c, 0) < C.Remaining(s.c, 0)
  {
    if m :| m in s.c.flight {
      t := OwnStays(i, s, lifted, h, C.Deliver(m));
    } else {
      var q := FirstOutside(s.c, k);
      FirstMoves(s.c, lifted, q);
      if s.c.pc[q].Quiet? {
        assert PeFits(s, q);
        OutCanCall(s.bar, q);
        t := EnterStays(i, s, lifted, h, q);
      } else {
        t := OwnStays(i, s, lifted, h, C.Run(q));
      }
    }
  }

  /** So all of them can get into the barrier. */
  lemma {:induction false} AllEnter(i: State, s: State, lifted: set<nat>, h: nat) returns (t: State)
    requires Hit(i, s, lifted, h)
    ensures Hit(i, t, lifted, h) && forall p :: 0 <= p < |t.c.sources| ==> t.c.pc[p].Closing?
    decreases C.Remaining(s.c, 0)
  {
    if k: nat :| k < |s.c.sources| && !s.c.pc[k].Closing? {
      var u := Onward(i, s, lifted, h, k);
      t := AllEnter(i, u, lifted, h);
    } else {
      t := s;
    }
  }

  // ------------------------------------------------------------ out of the barrier

  ghost predicate AllInside(i: State, s: State, h: nat) {
    && From(i, s) && Inv(s) && Untouched(s.c) && Lost(s.bar, h) && h < |s.c.sources| && |s.c.sources| > 1
    && forall p :: 0 <= p < |s.c.sources| ==> s.c.pc[p].Closing? || s.c.pc[p].Done?
  }

  lemma InsideStays(i: State, s: State, h: nat, e: D.Event) returns (t: State)
    requires AllInside(i, s, h) && D.Enabled(s.bar.d, e) && !e.Call?
    ensures AllInside(i, t, h) && D.Remaining(WithPoke(t.bar.d, h)) < D.Remaining(WithPoke(s.bar.d, h))
  {
    t := Go(i, s, Inside(DissemStep(e)));
    assert CollectRun.Next(s, t);
    StepKeepsInv(s, t);
    LostLowers(s.bar.d, e, h);
    PokeStaysLost(s.bar.d, e, h);
    NotInUse(s, e);
  }

  lemma NotInUse(s: State, e: D.Event)
    requires Fits(s) && s.bar.Dissem? && D.Enabled(s.bar.d, e) && !e.Call? && Untouched(s.c)
    requires forall p :: 0 <= p < |s.c.sources| ==> s.c.pc[p].Closing? || s.c.pc[p].Done?
    ensures var t := CollectRun.Apply(s, Inside(DissemStep(e)));
            && t.bar == Dissem(D.Apply(s.bar.d, e)) && Untouched(t.c) && t.c.sources == s.c.sources
            && forall p :: 0 <= p < |t.c.sources| ==> t.c.pc[p].Closing? || t.c.pc[p].Done?
  {
    assert !Disturbs(s, DissemStep(e));
    CountersSized(AnyBarrier.Apply(s.bar, DissemStep(e)));
    ReturnedUntouched(s.c, Calls(AnyBarrier.Apply(s.bar, DissemStep(e))));
  }

  lemma ReturnedUntouched(c: C.State, calls: B.Calls)
    requires Untouched(c) && |calls.entered| == |calls.left| == |c.sources|
    requires forall p :: 0 <= p < |c.sources| ==> c.pc[p].Closing? || c.pc[p].Done?
    ensures var d := Returned(c, calls);
            Untouched(d) && forall p :: 0 <= p < |d.sources| ==> d.pc[p].Closing? || d.pc[p].Done?
  {
  }

  lemma LostLowers(d: D.State, e: D.Event, h: nat)
    requires D.Shape(d) && D.Reached(WithPoke(d, h)) && D.Enabled(d, e) && !e.Call?
    ensures D.Remaining(WithPoke(D.Apply(d, e), h)) < D.Remaining(WithPoke(d, h))
  {
    LostOrNeverDelivered(d, e, h);
    D.DissemIsBarrier(WithPoke(d, h));
    assert D.NextInside(WithPoke(d, h), WithPoke(D.Apply(d, e), h));
    D.InsideLowers(WithPoke(d, h), WithPoke(D.Apply(d, e), h));
  }

  lemma {:induction false} UntilOver(i: State, s: State, h: nat) returns (t: State)
    requires AllInside(i, s, h)
    ensures AllInside(i, t, h) && Over(t.bar.d, h)
    decreases D.Remaining(WithPoke(s.bar.d, h))
  {
    if e :| D.Enabled(s.bar.d, e) && !e.Call? {
      var u := InsideStays(i, s, h, e);
      t := UntilOver(i, u, h);
    } else {
      t := s;
      D.DissemIsBarrier(WithPoke(s.bar.d, h));
      forall p | 0 <= p < s.bar.d.n ensures s.bar.d.entered[p] == 1 { assert PeFits(s, p); }
    }
  }

  /** And one of them gets out of it. */
  lemma SomebodyReturns(i: State, s: State, h: nat) returns (t: State, p: nat)
    requires AllInside(i, s, h)
    ensures From(i, t) && Fits(t) && Untouched(t.c) && p < |t.c.sources| && t.c.pc[p] == C.Done
  {
    t := UntilOver(i, s, h);
    LeaverHasLeft(t.bar.d, h);
    p := Leaver(t.bar.d.n, h);
    assert PeFits(t, p);
  }

  lemma ReturnsUntouched(i: State, s: State, lifted: set<nat>, h: nat) returns (t: State, p: nat)
    requires Hit(i, s, lifted, h)
    ensures From(i, t) && Fits(t) && Untouched(t.c) && p < |t.c.sources| && t.c.pc[p] == C.Done
  {
    var u := AllEnter(i, s, lifted, h);
    t, p := SomebodyReturns(i, u, h);
  }

  // ------------------------------------------------------------ up to the hit

  /** Whoever has something for the first place of the targets has not read its offset yet. */
  ghost predicate NoneSent(c: C.State)
    requires C.Shape(c)
  {
    forall p: nat {:trigger NotRead(c, p)} ::
      p < |c.sources| && c.sources[p] != [] && C.Offset(c.sources, p) == 0 ==> NotRead(c, p)
  }

  ghost predicate Before(s: State) {
    Known(s, {}) && !s.c.fixed && (NoneSent(s.c) ==> Untouched(s.c))
  }

  lemma RunBefore(c: C.State, q: nat)
    requires Sums(c, {}) && !c.fixed && (NoneSent(c) ==> Untouched(c)) && C.Enabled(c, C.Run(q))
    ensures NoneSent(C.Apply(c, C.Run(q))) ==> Untouched(C.Apply(c, C.Run(q)))
  {
    var d := C.Apply(c, C.Run(q));
    if NoneSent(d) {
      forall p: nat | p < |c.sources| && c.sources[p] != [] && C.Offset(c.sources, p) == 0 ensures NotRead(c, p) {
        assert NotRead(d, p);
      }
      assert SumOk(c, {}, q) && (c.pc[q].Send? ==> !NotRead(d, q));
      RunUntouched(c, q);
    }
  }

  lemma LandBefore(c: C.State, m: C.Put)
    requires C.Shape(c) && (NoneSent(c) ==> Untouched(c)) && C.Enabled(c, C.Deliver(m))
    ensures NoneSent(C.Apply(c, C.Deliver(m))) ==> Untouched(C.Apply(c, C.Deliver(m)))
  {
    var d := C.Apply(c, C.Deliver(m));
    if NoneSent(d) {
      forall p: nat | p < |c.sources| && c.sources[p] != [] && C.Offset(c.sources, p) == 0 ensures NotRead(c, p) {
        assert NotRead(d, p);
      }
      LandUntouched(c, m);
    }
  }

  lemma InsideBefore(s: State, b: Step)
    requires Before(s) && CollectRun.Enabled(s, Inside(b))
    ensures var d := CollectRun.Apply(s, Inside(b)).c; NoneSent(d) ==> Untouched(d)
  {
    var d := CollectRun.Apply(s, Inside(b)).c;
    if NoneSent(d) {
      forall p: nat | p < |d.sources| && d.sources[p] != [] && C.Offset(d.sources, p) == 0 ensures NotRead(s.c, p) {
        assert NotRead(d, p);
      }
    }
  }

  lemma BeforeStays(s: State, t: State)
    requires Before(s) && CollectRun.Next(s, t)
    ensures Before(t)
  {
    StepKeeps(s, t, {});
    var e :| CollectRun.Enabled(s, e) && t == CollectRun.Apply(s, e);
    SameCall(s, e);
    match e
    case Own(o) => if o.Run? { RunBefore(s.c, o.p); } else { LandBefore(s.c, o.m); }
    case Enter(p) => RunBefore(s.c, p);
    case Inside(b) => InsideBefore(s, b);
  }

  lemma StartsBefore(i: State)
    requires CollectRun.Initial(i) && !i.c.fixed && C.Offset(i.c.sources, |i.c.sources|) > 0
    ensures Before(i)
  {
    InitialInv(i);
    InitialSums(i.c);
  }

  lemma UntouchedSoFar(i: State, s: State)
    requires CollectRun.Initial(i) && !i.c.fixed && From(i, s) && Fits(s) && NoneSent(s.c)
    requires C.Offset(i.c.sources, |i.c.sources|) > 0
    ensures Untouched(s.c)
  {
    StartsBefore(i);
    var path :| IsPath(CollectRun.Next, path) && path[0] == i && path[|path| - 1] == s;
    forall t, u | Before(t) && CollectRun.Next(t, u) ensures Before(u) { BeforeStays(t, u); }
    PathKeeps(CollectRun.Next, Before, path);
  }

  lemma HitIsCounted(c: C.State, p: nat)
    requires C.Inv(c) && p < |c.sources|
    ensures Counted(OneMore(c, p))
  {
    var d := OneMore(c, p);
    forall q: nat | q < |d.sources| ensures C.Sent(d, q) <= |d.sources| { assert C.PeOk(c, q); }
    forall m | m in d.flight ensures m.dst < |d.sources| { assert C.PutOk(c, m); }
  }

  /** The call, the poke on its way, and the poke lost: that of a PE that was the first to call. */
  lemma FirstPokeLost(d: D.State, q: nat, p: nat)
    requires D.Initial(d) && d.n > 1 && q < d.n && p == (if q + 1 < d.n then q + 1 else 0)
    ensures D.Enabled(d, D.Call(q))
    ensures var m := D.Apply(d, D.Call(q)); Lost(Dissem(m.(pc := m.pc[q := D.Wait(0)])), p)
  {
    DissemPoke(d, q);
    var m := D.Apply(d, D.Call(q));
    var k := D.Apply(m, D.Run(q));
    ReachableInit(D.Initial, D.Next, d);
    assert D.Next(d, m) && D.Next(m, k);
    ReachableStep(D.Initial, D.Next, d, m);
    ReachableStep(D.Initial, D.Next, m, k);
    assert WithPoke(m.(pc := m.pc[q := D.Wait(0)]), p) == k;
  }

  /** PE p has not read its offset, and a hit there keeps everybody from the first place of the targets. */
  ghost predicate Ready(c: C.State, p: nat) {
    && C.Shape(c) && !c.fixed && p < |c.sources| && |c.sources| > 1 && NotRead(c, p) && Settled(c, p)
    && Positive(c.sources, Misled(c, p)) && forall q :: 0 <= q < |c.sources| ==> c.pc[q] != C.Done
  }


  /** From s to t PE p is hit for the first time. */
  ghost predicate FirstHit(s: State, t: State, p: nat) {
    && p < |s.c.cell| && t.c == OneMore(s.c, p) && t.hit == {p} && Lost(t.bar, p)
  }

  lemma ReachedSums(s: State)
    requires CollectRun.Reached(s)
    ensures Sums(s.c, {}) && (s.hit == {} ==> C.Inv(s.c))
  {
    ReachedKnown(s);
    if s.hit == {} { C.ReachedInv(s.c); }
  }

  lemma SameNone(c: C.State, p: nat, d: C.State)
    requires C.Shape(c) && p < |c.sources| && NoneSent(c) && d == OneMore(c, p)
    ensures NoneSent(d)
  {
    forall q: nat | q < |c.sources| ensures NotRead(d, q) <==> NotRead(c, q) {}
  }

  /** PE q is the first to call the barrier and pokes the next one. */
  lemma FirstPoke(i: State, s: State, q: nat, p: nat) returns (t: State)
    requires CollectRun.Initial(i) && i.bar.Dissem? && From(i, s) && Fits(s) && s.hit == {} && |s.c.sources| > 1
    requires q < |s.c.sources| && p == (if q + 1 < |s.c.sources| then q + 1 else 0) && NotRead(s.c, p)
    requires Size(i.bar) == |s.c.sources| && HasCalled(i.bar, s.bar, q)
    ensures From(i, t) && Fits(t) && FirstHit(s, t, p)
  {
    FirstPokeLost(i.bar.d, q, p);
    t := DissemRace(i, s, i.bar.d, q, p);
  }

  /** Up to a hit of a call with room, with nothing sent to the first place of a target, that place is untouched. */
  lemma NoneSentYet(i: State, c: C.State, t: State, p: nat)
    requires CollectRun.Initial(i) && !i.c.fixed && C.Offset(i.c.sources, |i.c.sources|) > 0 && From(i, t) && Fits(t)
    requires C.Shape(c) && p < |c.sources| && NoneSent(c) && t.c == OneMore(c, p)
    ensures Untouched(t.c)
  {
    SameNone(c, p, t.c);
    UntouchedSoFar(i, t);
  }

  /** What the first hit of a run leaves. */
  lemma HitIsKnown(s: State, t: State, p: nat)
    requires CollectRun.Reached(s) && CollectRun.Reached(t) && Fits(s) && FirstHit(s, t, p)
    requires p < |s.c.sources| && NotRead(s.c, p) && Settled(s.c, p)
    ensures Known(t, Misled(s.c, p))
  {
    ReachedInv(t);
    ReachedSums(s);
    ReachedSums(t);
    LiftHit(s.c, p, t.c);
  }

  lemma HitIsFine(s: State, t: State, p: nat)
    requires CollectRun.Reached(s) && Fits(s) && s.hit == {} && Ready(s.c, p) && FirstHit(s, t, p)
    requires Untouched(t.c)
    ensures Fine(t.c, Misled(s.c, p))
  {
    ReachedSums(s);
    HitIsCounted(s.c, p);
  }

  /** In some continuation somebody returns. */
  lemma HitReturns(i: State, s: State, t: State, p: nat) returns (u: State, x: nat)
    requires From(i, t) && CollectRun.Reached(s) && CollectRun.Reached(t) && Fits(s) && s.hit == {} && FirstHit(s, t, p)
    requires Ready(s.c, p) && Untouched(t.c)
    ensures From(i, u) && Fits(u) && Untouched(u.c) && x < |u.c.sources| && u.c.pc[x] == C.Done
  {
    HitIsFine(s, t, p);
    HitIsKnown(s, t, p);
    u, x := ReturnsUntouched(i, t, Misled(s.c, p), p);
  }

  /** A run in which PE q is the first to call the barrier, and PE p can be hit. */
  ghost predicate Poised(i: State, s: State, q: nat, p: nat) {
    && From(i, s) && CollectRun.Reached(s) && Fits(s) && s.hit == {} && Ready(s.c, p) && NoneSent(s.c)
    && q < |s.c.sources| && p == (if q + 1 < |s.c.sources| then q + 1 else 0)
    && Size(i.bar) == |s.c.sources| && HasCalled(i.bar, s.bar, q)
  }

  lemma PokeReturns(i: State, s: State, q: nat, p: nat) returns (u: State, x: nat)
    requires CollectRun.Initial(i) && !i.c.fixed && C.Offset(i.c.sources, |i.c.sources|) > 0 && i.bar.Dissem?
             && Poised(i, s, q, p)
    ensures From(i, u) && Fits(u) && Untouched(u.c) && x < |u.c.sources| && u.c.pc[x] == C.Done
  {
    var t := FirstPoke(i, s, q, p);
    IsReached(i, t);
    NoneSentYet(i, s.c, t, p);
    u, x := HitReturns(i, s, t, p);
  }

  /** The first PE can be hit when it is about to read its offset. */
  lemma PoisedFirst(i: State) returns (s: State, q: nat)
    requires CollectRun.Initial(i) && !i.c.fixed && i.bar.Dissem? && |i.c.sources| > 1 && |i.c.sources[0]| > 0
    ensures Poised(i, s, q, 0)
  {
    s := Paused(i);
    FromIsReached(i, s);
    C.ReachedInv(s.c);
    ReadyFirst(s.c);
    q := |s.c.sources| - 1;
  }

  lemma ReadyFirst(c: C.State)
    requires C.Inv(c) && |c.sources| > 1 && |c.sources[0]| > 0 && OthersAboutToRead(c) && c.pc[|c.sources| - 1].Closing?
    requires c.flight == multiset{}
    ensures Ready(c, 0) && NoneSent(c)
  {
    assert AboutToRead(c, 0) && Concerns(c, 0, 0);
    forall p: nat | 0 < p < |c.sources| ensures C.Offset(c.sources, p) >= 1 { C.OffsetsGrow(c.sources, 0, p); }
    forall q | 0 <= q < |c.sources| ensures c.pc[q] != C.Done { assert AboutToRead(c, q); }
    assert NotRead(c, 0) && 0 in Misled(c, 0);
  }

  /** When the first PE contributes nothing, its poke hits the second, which waits for its sum. */
  lemma PoisedSecond(i: State) returns (s: State)
    requires CollectRun.Initial(i) && !i.c.fixed && i.bar.Dissem? && |i.c.sources| > 1 && |i.c.sources[0]| == 0
    ensures Poised(i, s, 0, 1)
  {
    s := FirstCalls(i);
    FromIsReached(i, s);
    C.ReachedInv(s.c);
    forall q: nat | 1 <= q < |s.c.sources| ensures s.c.pc[q].Start? { OthersAtStart(s.c, q); }
    ReadySecond(s.c);
  }

  lemma ReadySecond(c: C.State)
    requires C.Shape(c) && !c.fixed && |c.sources| > 1 && |c.sources[0]| == 0 && c.flight == multiset{}
    requires c.pc[0].Closing? && forall q :: 1 <= q < |c.sources| ==> c.pc[q].Start?
    ensures Ready(c, 1) && NoneSent(c)
  {
    forall p: nat | 0 < p < |c.sources| ensures p in Misled(c, 1) && NotRead(c, p) { assert Concerns(c, 1, p); }
  }

  // ------------------------------------------------------------ the exact condition

  /** In every run of the call every PE that returns has the concatenation. */
  ghost predicate ReturnsRight(i: State) {
    forall s, p: nat {:trigger From(i, s), C.Collected(s.c, p)} ::
      From(i, s) && Fits(s) && p < |s.c.sources| && s.c.pc[p].Done? ==> C.Collected(s.c, p)
  }

  datatype Algorithm = LinearAlgorithm | TreeAlgorithm | DissemAlgorithm

  predicate Uses(b: Bar, a: Algorithm) {
    match a
    case LinearAlgorithm => b.Linear?
    case TreeAlgorithm => b.OnTree?
    case DissemAlgorithm => b.Dissem?
  }

  /** A call of collect with these contributions, whatever the targets hold. */
  ghost predicate CallWith(i: State, a: Algorithm, sources: seq<seq<int>>) {
    CollectRun.Initial(i) && !i.c.fixed && Uses(i.bar, a) && i.c.sources == sources
  }

  /** With a given barrier and given contributions every PE that returns has the concatenation in every run, exactly if
      the barrier is not dissemination, or there is only one PE, or nobody contributes anything. */
  lemma ReturnsRightExactly(a: Algorithm, sources: seq<seq<int>>)
    requires |sources| > 0
    ensures (forall i {:trigger CallWith(i, a, sources)} :: CallWith(i, a, sources) ==> ReturnsRight(i))
            <==> !a.DissemAlgorithm? || |sources| == 1 || C.Offset(sources, |sources|) == 0
  {
    if !a.DissemAlgorithm? || |sources| == 1 || C.Offset(sources, |sources|) == 0 {
      forall i | CallWith(i, a, sources) ensures ReturnsRight(i) {
        forall s, p: nat | From(i, s) && Fits(s) && p < |s.c.sources| && s.c.pc[p].Done? ensures C.Collected(s.c, p) {
          RightWhen(i, a, s, p);
        }
      }
    } else {
      var i := OtherTargets(sources);
      WrongReturn(i);
    }
  }

  lemma RightWhen(i: State, a: Algorithm, s: State, p: nat)
    requires CallWith(i, a, i.c.sources) && From(i, s) && Fits(s) && p < |s.c.sources| && s.c.pc[p].Done?
    requires !a.DissemAlgorithm? || |i.c.sources| == 1 || C.Offset(i.c.sources, |i.c.sources|) == 0
    ensures C.Collected(s.c, p)
  {
    FromIsReached(i, s);
    FromSameInput(i, s);
    if a.DissemAlgorithm? && |i.c.sources| > 1 {
      NothingCollected(i, s);
    } else {
      if |i.c.sources| == 1 { CalmHasNoHits(s); }
      ReturnedIsConcatenation(s, p);
    }
  }

  /** All slices are empty and all targets what they were. */
  ghost predicate Empty(c: C.State) {
    && C.Shape(c) && c.target == c.init && (forall p :: 0 <= p < |c.sources| ==> c.sources[p] == [])
    && forall m :: m in c.flight && m.Slice? ==> m.data == []
  }

  lemma EmptyStays(s: State, t: State)
    requires Fits(s) && Empty(s.c) && CollectRun.Next(s, t)
    ensures Fits(t) && Empty(t.c)
  {
    var e :| CollectRun.Enabled(s, e) && t == CollectRun.Apply(s, e);
    match e
    case Own(o) => EmptyOwn(s.c, o);
    case Enter(p) => EmptyOwn(s.c, C.Run(p));
    case Inside(b) =>
  }

  lemma EmptyOwn(c: C.State, o: C.Event)
    requires Empty(c) && C.Enabled(c, o)
    ensures Empty(C.Apply(c, o))
  {
    if o.Deliver? && o.m.Slice? {
      var d := C.Apply(c, o);
      assert C.WithSlice(c.target[o.m.dst], o.m.off, []) == c.target[o.m.dst];
      assert d.target == c.target;
    }
  }

  lemma NothingCollected(i: State, s: State)
    requires CollectRun.Initial(i) && From(i, s) && Fits(s) && C.Offset(i.c.sources, |i.c.sources|) == 0
    ensures forall p: nat :: p < |s.c.sources| ==> C.Collected(s.c, p)
  {
    FromSameInput(i, s);
    forall p | 0 <= p < |i.c.sources| ensures i.c.sources[p] == [] { C.OffsetsGrow(i.c.sources, p, |i.c.sources|); }
    var path :| IsPath(CollectRun.Next, path) && path[0] == i && path[|path| - 1] == s;
    var inv := (t: State) => Fits(t) && Empty(t.c);
    forall t, u | inv(t) && CollectRun.Next(t, u) ensures inv(u) { EmptyStays(t, u); }
    PathKeeps(CollectRun.Next, inv, path);
  }

  /** Targets whose first element is not that of the concatenation. */
  ghost predicate FirstDiffers(i: State)
    requires C.Shape(i.c) && C.Offset(i.c.sources, |i.c.sources|) > 0
  {
    forall p :: 0 <= p < |i.c.sources| ==> i.c.init[p][0] != C.Concat(i.c.sources, |i.c.sources|)[0]
  }

  lemma OtherTargets(sources: seq<seq<int>>) returns (i: State)
    requires |sources| > 1 && C.Offset(sources, |sources|) > 0
    ensures CallWith(i, DissemAlgorithm, sources) && FirstDiffers(i)
  {
    var n, total := |sources|, C.Offset(sources, |sources|);
    var other := C.Concat(sources, n)[0] + 1;
    var init := seq(n, _ => seq(total, _ => other));
    var zeros := seq(n, _ => 0);
    var c := C.State(false, sources, init, init, zeros, seq(n, _ => C.Start), multiset{}, seq(n, _ => {}),
      B.Calls(zeros, zeros));
    var rounds := D.Rounds(n, 0);
    var d := D.State(n, rounds, seq(n, _ => seq(rounds, _ => 0)), seq(n, _ => D.Out), multiset{}, zeros, zeros);
    i := State(c, Dissem(d), {});
  }

  lemma WrongReturn(i: State)
    requires CallWith(i, DissemAlgorithm, i.c.sources) && |i.c.sources| > 1 && C.Offset(i.c.sources, |i.c.sources|) > 0
    requires FirstDiffers(i)
    ensures !ReturnsRight(i)
  {
    var s, q, h;
    if |i.c.sources[0]| > 0 {
      s, q := PoisedFirst(i);
      h := 0;
    } else {
      s := PoisedSecond(i);
      q, h := 0, 1;
    }
    var t, p := PokeReturns(i, s, q, h);
    FromSameInput(i, t);
    FirstIsWrong(t.c, p);
  }

  lemma FirstIsWrong(c: C.State, p: nat)
    requires Untouched(c) && p < |c.sources| && C.Offset(c.sources, |c.sources|) > 0
    requires c.init[p][0] != C.Concat(c.sources, |c.sources|)[0]
    ensures !C.Collected(c, p)
  {
    var front := c.target[p][..C.Offset(c.sources, |c.sources|)];
    assert front[0] == c.target[p][0];
  }

  /** What holds of any PE that has returned, without looking back at the call. */
  lemma ReturnedRight(s: State, p: nat)
    requires CollectRun.Reached(s) && Fits(s) && p < |s.c.sources| && s.c.pc[p].Done?
    requires s.c.fixed || !s.bar.Dissem? || s.hit == {} || |s.c.sources| == 1
             || C.Offset(s.c.sources, |s.c.sources|) == 0
    ensures C.Collected(s.c, p)
  {
    ReachedInv(s);
    if C.Offset(s.c.sources, |s.c.sources|) == 0 {
      var run :| IsRun(CollectRun.Initial, CollectRun.Next, run) && run[|run| - 1] == s;
      RunIsPath(CollectRun.Initial, CollectRun.Next, run);
      FromSameInput(run[0], s);
      NothingCollected(run[0], s);
    } else {
      if |s.c.sources| == 1 { CalmHasNoHits(s); }
      ReturnedIsConcatenation(s, p);
    }
  }
}
