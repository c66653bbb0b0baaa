/** fcollect and collect with the real barriers: one pSync cell per PE, which collect uses for the running sum until
    the PE clears it, and on which the closing barrier may already be poked by a faster PE. */
module CollectRun {
  import opened Runs
  import opened AnyBarrier
  import opened LostPoke
  import C = Collect
  import B = BarrierSpec
  import L = BarrierLinear
  import T = BarrierTree
  import D = BarrierDissem
  import opened Bits

  /** The first pSync cell of PE p is `c.cell[p]` until p clears it, and the barrier's cell from then on.
      History: the PEs whose cell was hit by a step of the barrier before they had cleared it. */
  datatype State = State(c: C.State, bar: Bar, hit: set<nat>)

  datatype Event = Own(o: C.Event) | Enter(p: nat) | Inside(b: Step)

  /** collect has not cleared the cell of PE p yet; fcollect never uses it. */
  ghost predicate InUse(c: C.State, p: nat)
    requires C.Shape(c) && p < |c.sources|
  {
    !c.fixed && (c.pc[p].Start? || c.pc[p].Forward? || c.pc[p].ReadOff? || c.pc[p].Send? || c.pc[p].Reset?)
  }

  ghost predicate Fits(s: State) {
    C.Shape(s.c) && Shape(s.bar) && Size(s.bar) == |s.c.sources| && s.c.calls == Calls(s.bar)
  }

  ghost predicate Initial(s: State) {
    Fits(s) && C.Initial(s.c) && AnyBarrier.Initial(s.bar) && s.hit == {}
  }

  ghost predicate Enabled(s: State, e: Event)
    requires Fits(s)
  {
    match e
    case Own(o) => C.Enabled(s.c, o) && (o.Run? ==> !s.c.pc[o.p].Quiet? && !s.c.pc[o.p].Closing?)
    case Enter(p) =>
      p < |s.c.sources| && s.c.pc[p].Quiet? && C.Enabled(s.c, C.Run(p)) && AnyBarrier.Enabled(s.bar, CallOf(s.bar, p))
    case Inside(b) => AnyBarrier.Enabled(s.bar, b) && !IsCall(b)
  }

  /** A PE the barrier has let out returns. */
  ghost function Returned(c: C.State, calls: B.Calls): C.State
    requires C.Shape(c) && |calls.entered| == |calls.left| == |c.sources|
  {
    c.(calls := calls,
       pc := seq(|c.sources|, p requires 0 <= p < |c.sources| && C.Shape(c) && |calls.left| == |c.sources| =>
         if c.pc[p].Closing? && calls.left[p] > c.calls.left[p] then C.Done else c.pc[p]))
  }

  ghost function Undisturbed(s: State, b: Step): (t: State)
    requires Fits(s) && Enabled(s, Inside(b))
    ensures Fits(t)
  {
    var bar := AnyBarrier.Apply(s.bar, b);
    CountersSized(bar);
    s.(c := Returned(s.c, Calls(bar)), bar := bar)
  }

  /** The step lands on the cell of p, which p still uses: p will clear it, and the barrier has lost it. */
  ghost function Disturbed(s: State, b: Step, p: nat, value: int): (t: State)
    requires Fits(s) && Enabled(s, Inside(b)) && EffectOf(s.bar, b) != NoEffect && p < |s.c.sources|
    ensures Fits(t)
  {
    State(s.c.(cell := s.c.cell[p := value]), Lose(s.bar, b), s.hit + {p})
  }

  /** The cell of p is one higher. */
  ghost function OneMore(c: C.State, p: nat): C.State
    requires p < |c.cell|
  {
    c.(cell := c.cell[p := c.cell[p] + 1])
  }

  ghost predicate Disturbs(s: State, b: Step)
    requires Fits(s) && Enabled(s, Inside(b))
  {
    var f := EffectOf(s.bar, b);
    f != NoEffect && f.p < |s.c.sources| && InUse(s.c, f.p)
  }

  ghost function InsideStep(s: State, b: Step): (t: State)
    requires Fits(s) && Enabled(s, Inside(b))
    ensures Fits(t)
  {
    if Disturbs(s, b) then
      var f := EffectOf(s.bar, b);
      Disturbed(s, b, f.p, if f.Adds? then s.c.cell[f.p] + 1 else f.value)
    else Undisturbed(s, b)
  }

  lemma HitAdds(s: State, b: Step, p: nat)
    requires Fits(s) && Enabled(s, Inside(b)) && EffectOf(s.bar, b) == Adds(p) && p < |s.c.sources| && InUse(s.c, p)
    ensures InsideStep(s, b) == State(OneMore(s.c, p), Lose(s.bar, b), s.hit + {p})
  {
  }

  lemma CountersSized(b: Bar)
    requires Shape(b)
    ensures |Calls(b).entered| == |Calls(b).left| == Size(b)
  {
  }

  ghost function OwnStep(s: State, o: C.Event): (t: State)
    requires Fits(s) && Enabled(s, Own(o))
    ensures Fits(t)
  {
    OwnCalls(s.c, o);
    s.(c := C.Apply(s.c, o))
  }

  ghost function EnterStep(s: State, p: nat): (t: State)
    requires Fits(s) && Enabled(s, Enter(p))
    ensures Fits(t)
  {
    CallEnters(s.bar, p);
    s.(c := C.Apply(s.c, C.Run(p)), bar := AnyBarrier.Apply(s.bar, CallOf(s.bar, p)))
  }

  ghost function Apply(s: State, e: Event): (t: State)
    requires Fits(s) && Enabled(s, e)
    ensures Fits(t)
  {
    match e
    case Own(o) => OwnStep(s, o)
    case Enter(p) => EnterStep(s, p)
    case Inside(b) => InsideStep(s, b)
  }

  lemma OwnCalls(c: C.State, o: C.Event)
    requires C.Shape(c) && C.Enabled(c, o) && (o.Run? ==> !c.pc[o.p].Quiet? && !c.pc[o.p].Closing?)
    ensures C.Apply(c, o).calls == c.calls
  {
  }

  ghost predicate Next(s: State, t: State) {
    Fits(s) && exists e :: Enabled(s, e) && t == Apply(s, e)
  }

  ghost predicate Reached(s: State) { Reachable(Initial, Next, s) }

  ghost predicate Ended(s: State) {
    forall t {:trigger Next(s, t)} :: !Next(s, t)
  }

  ghost predicate AllDone(s: State) {
    Fits(s) && forall p :: 0 <= p < |s.c.sources| ==> s.c.pc[p] == C.Done
  }

  // ------------------------------------------------------------ invariant

  /** A PE's place in collect and its calls of the barrier. */
  ghost predicate PeFits(s: State, p: int)
    requires Fits(s)
  {
    0 <= p < |s.c.sources| ==>
      && s.c.calls.entered[p] == (if s.c.pc[p].Closing? || s.c.pc[p].Done? then 1 else 0)
      && s.c.calls.left[p] == (if s.c.pc[p].Done? then 1 else 0)
      && (IsOut(s.bar, p) <==> s.c.calls.entered[p] == s.c.calls.left[p])
      && (InUse(s.c, p) ==> Cell(s.bar, p) == 0)
      && (s.c.fixed ==> !s.c.pc[p].Start? && !s.c.pc[p].Forward? && !s.c.pc[p].ReadOff? && !s.c.pc[p].Reset?)
  }

  /** What is left of the barrier after a poke was lost. */
  ghost predicate Crippled(b: Bar) {
    match b
    case Linear(l) => exists q: nat :: LinearStuck(l, q)
    case OnTree(t) => exists c: nat :: TreeStuck(t, c)
    case Dissem(d) => d.n > 1
  }

  ghost predicate Inv(s: State) {
    && Fits(s)
    && (forall p {:trigger PeFits(s, p)} :: PeFits(s, p))
    && (s.hit == {} ==> AnyBarrier.Reached(s.bar) && C.Reached(s.c))
    && (s.hit != {} ==> Crippled(s.bar) && !s.c.fixed)
    && (s.bar.Dissem? ==> OneCallEach(s.bar.d, s.hit))
    && (forall p :: p in s.hit ==> p < |s.c.sources|)
  }

  lemma InitialInv(s: State)
    requires Initial(s)
    ensures Inv(s)
  {
    InitialReached(s.bar);
    ReachableInit(C.Initial, C.Next, s.c);
    if s.bar.Dissem? { OneCallStarts(s.bar.d); }
    forall p ensures PeFits(s, p) {
      if 0 <= p < |s.c.sources| { OutMeansLeft(s.bar, p); }
    }
  }

  // ------------------------------------------------------------- own steps

  lemma KeepOwn(s: State, o: C.Event)
    requires Inv(s) && Enabled(s, Own(o))
    ensures Inv(Apply(s, Own(o)))
  {
    var t := Apply(s, Own(o));
    forall p ensures PeFits(t, p) { assert PeFits(s, p); OwnPe(s, o, p); }
    if s.hit == {} {
      assert C.Next(s.c, t.c);
      ReachableStep(C.Initial, C.Next, s.c, t.c);
    }
  }

  lemma OwnPe(s: State, o: C.Event, p: int)
    requires Fits(s) && Enabled(s, Own(o)) && PeFits(s, p)
    ensures PeFits(Apply(s, Own(o)), p)
  {
  }

  // ------------------------------------------------------ entering the barrier

  lemma KeepEnter(s: State, p: nat)
    requires Inv(s) && Enabled(s, Enter(p))
    ensures Inv(Apply(s, Enter(p)))
  {
    var t := Apply(s, Enter(p));
    assert PeFits(s, p);
    forall q ensures PeFits(t, q) { EnterPe(s, p, q); }
    if s.hit == {} { EnterReached(s, p); } else { StaysCrippled(s.bar, CallOf(s.bar, p)); }
    if s.bar.Dissem? { OneCallStays(s.bar.d, s.hit, D.Call(p)); }
  }

  lemma EnterReached(s: State, p: nat)
    requires Inv(s) && Enabled(s, Enter(p)) && s.hit == {}
    ensures AnyBarrier.Reached(Apply(s, Enter(p)).bar) && C.Reached(Apply(s, Enter(p)).c)
  {
    StepReached(s.bar, CallOf(s.bar, p));
    var d := C.Apply(s.c, C.Run(p));
    assert C.Next(s.c, d);
    ReachableStep(C.Initial, C.Next, s.c, d);
  }

  lemma EnterPe(s: State, p: nat, q: int)
    requires Fits(s) && Enabled(s, Enter(p)) && PeFits(s, p) && PeFits(s, q)
    ensures PeFits(Apply(s, Enter(p)), q)
  {
    if 0 <= q < |s.c.sources| { CallTouches(s.bar, p, q); }
  }

  /** A call takes only the caller inside, and leaves all cells alone. */
  lemma CallTouches(b: Bar, p: nat, q: nat)
    requires Shape(b) && AnyBarrier.Enabled(b, CallOf(b, p)) && p < Size(b) && q < Size(b)
    ensures IsOut(AnyBarrier.Apply(b, CallOf(b, p)), q) <==> q != p && IsOut(b, q)
    ensures Cell(AnyBarrier.Apply(b, CallOf(b, p)), q) == Cell(b, q)
  {
  }

  lemma StaysCrippled(b: Bar, e: Step)
    requires Shape(b) && Crippled(b) && AnyBarrier.Enabled(b, e)
    ensures Crippled(AnyBarrier.Apply(b, e))
  {
    match b
    case Linear(l) =>
      var q: nat :| LinearStuck(l, q);
      LinearStaysStuck(l, q, e.le);
    case OnTree(t) =>
      var c: nat :| TreeStuck(t, c);
      TreeStaysStuck(t, c, e.te);
    case Dissem(d) =>
  }

  // ------------------------------------------------------ inside the barrier

  /** Who is out, and how often: a step lets at most its own PE out. */
  ghost predicate LetsOut(b: Bar, r: Bar, p: nat)
    requires Shape(b) && Shape(r) && Size(r) == Size(b) && p < Size(b)
  {
    && Calls(r).entered == Calls(b).entered
    && Calls(r).left[p] == Calls(b).left[p] + (if !IsOut(b, p) && IsOut(r, p) then 1 else 0)
    && (IsOut(b, p) ==> IsOut(r, p))
  }

  lemma InsideCounters(b: Bar, e: Step, p: nat)
    requires Shape(b) && AnyBarrier.Enabled(b, e) && !IsCall(e) && p < Size(b)
    ensures LetsOut(b, AnyBarrier.Apply(b, e), p)
  {
    match b
    case Linear(l) => LinearCounters(l, e.le, p);
    case OnTree(t) => TreeCounters(t, e.te, p);
    case Dissem(d) => DissemCounters(d, e.de, p);
  }

  lemma LinearCounters(l: L.State, e: L.Event, p: nat)
    requires L.Shape(l) && L.Enabled(l, e) && !e.Call? && p < l.n
    ensures LetsOut(Linear(l), Linear(L.Apply(l, e)), p)
  {
  }

  lemma TreeCounters(t: T.State, e: T.Event, p: nat)
    requires T.Shape(t) && T.Enabled(t, e) && !e.Call? && p < t.tree.n
    ensures LetsOut(OnTree(t), OnTree(T.Apply(t, e)), p)
  {
  }

  lemma DissemCounters(d: D.State, e: D.Event, p: nat)
    requires D.Shape(d) && D.Enabled(d, e) && !e.Call? && p < d.n
    ensures LetsOut(Dissem(d), Dissem(D.Apply(d, e)), p)
  {
  }

  lemma LoseCounters(b: Bar, e: Step, p: nat)
    requires Shape(b) && AnyBarrier.Enabled(b, e) && !IsCall(e) && p < Size(b) && EffectOf(b, e) != NoEffect
    ensures IsOut(Lose(b, e), p) <==> IsOut(b, p)
  {
  }

  lemma UndisturbedPe(s: State, b: Step, p: int)
    requires Inv(s) && Enabled(s, Inside(b)) && !Disturbs(s, b)
    ensures PeFits(Apply(s, Inside(b)), p)
  {
    assert PeFits(s, p);
    if 0 <= p < |s.c.sources| {
      InsideCounters(s.bar, b, p);
      if IsOut(s.bar, p) { EffectIsAll(s.bar, b, p); }
    }
  }

  lemma DisturbedPe(s: State, b: Step, p: int)
    requires Inv(s) && Enabled(s, Inside(b)) && Disturbs(s, b)
    ensures PeFits(Apply(s, Inside(b)), p)
  {
    assert PeFits(s, p);
    if 0 <= p < |s.c.sources| {
      LoseCounters(s.bar, b, p);
      LoseKeepsCells(s.bar, b, p);
    }
  }

  lemma KeepUndisturbed(s: State, b: Step)
    requires Inv(s) && Enabled(s, Inside(b)) && !Disturbs(s, b)
    ensures Inv(Apply(s, Inside(b)))
  {
    var t := Apply(s, Inside(b));
    forall p ensures PeFits(t, p) { UndisturbedPe(s, b, p); }
    if s.hit == {} {
      StepReached(s.bar, b);
      ReturnIsStep(s, b);
    } else {
      StaysCrippled(s.bar, b);
    }
    if s.bar.Dissem? { OneCallStays(s.bar.d, s.hit, b.de); }
  }

  /** In an undisturbed call a PE returns only when the barrier's contract lets it. */
  lemma ReturnIsStep(s: State, b: Step)
    requires Inv(s) && Enabled(s, Inside(b)) && !Disturbs(s, b) && s.hit == {}
    ensures C.Reached(Undisturbed(s, b).c)
  {
    var p := Returns(s, b);
    var d := Undisturbed(s, b).c;
    if d != s.c {
      assert C.Next(s.c, d);
      ReachableStep(C.Initial, C.Next, s.c, d);
    }
  }

  /** A step inside the barrier is no step of collect, or p returns. */
  lemma Returns(s: State, b: Step) returns (p: nat)
    requires Inv(s) && Enabled(s, Inside(b)) && s.hit == {}
    ensures Undisturbed(s, b).c == s.c
            || (C.Enabled(s.c, C.Run(p)) && Undisturbed(s, b).c == C.Apply(s.c, C.Run(p)) && s.c.pc[p].Closing?)
  {
    p := StepCalls(s.bar, b);
    if Calls(AnyBarrier.Apply(s.bar, b)) == Calls(s.bar) {
      NobodyReturns(s.c);
    } else {
      assert PeFits(s, p);
      ReturnedAs(s.c, Calls(AnyBarrier.Apply(s.bar, b)), p);
    }
  }

  lemma NobodyReturns(c: C.State)
    requires C.Shape(c)
    ensures Returned(c, c.calls) == c
  {
    assert Returned(c, c.calls).pc == c.pc;
  }

  lemma ReturnedAs(c: C.State, calls: B.Calls, p: nat)
    requires C.Shape(c) && B.Leaves(c.calls, calls, p) && p < |c.sources| && c.pc[p].Closing?
    ensures C.Enabled(c, C.Run(p)) && Returned(c, calls) == C.Apply(c, C.Run(p))
  {
    OnlyOneReturns(c, calls, p);
  }

  lemma OnlyOneReturns(c: C.State, calls: B.Calls, p: nat)
    requires C.Shape(c) && p < |c.sources| && c.pc[p].Closing? && B.Leaves(c.calls, calls, p)
    ensures Returned(c, calls) == c.(pc := c.pc[p := C.Done], calls := calls)
  {
    var r := Returned(c, calls);
    forall q | 0 <= q < |c.sources| ensures r.pc[q] == c.pc[p := C.Done][q] {}
    assert r.pc == c.pc[p := C.Done];
  }

  lemma KeepDisturbed(s: State, b: Step)
    requires Inv(s) && Enabled(s, Inside(b)) && Disturbs(s, b)
    ensures Inv(Apply(s, Inside(b)))
  {
    var t := Apply(s, Inside(b));
    forall p ensures PeFits(t, p) { DisturbedPe(s, b, p); }
    assert PeFits(s, EffectOf(s.bar, b).p);
    if s.hit == {} { FirstLoss(s, b); } else { StaysCrippledLosing(s.bar, b); }
    if s.bar.Dissem? { OneCallLoses(s.bar.d, s.hit, b.de.m); }
  }

  lemma FirstLoss(s: State, b: Step)
    requires Inv(s) && Enabled(s, Inside(b)) && Disturbs(s, b) && s.hit == {}
    ensures Crippled(Lose(s.bar, b))
  {
    var p := EffectOf(s.bar, b).p;
    assert PeFits(s, p);
    match s.bar
    case Linear(l) => LinearFirstLoss(l, b.le, p);
    case OnTree(t) => TreeFirstLoss(t, b.te, p);
    case Dissem(d) => assert Exp2(0) == 1;
  }

  lemma LinearFirstLoss(l: L.State, e: L.Event, p: nat)
    requires L.Reached(l) && L.Shape(l) && L.Enabled(l, e) && EffectOf(Linear(l), LinearStep(e)) != NoEffect
    requires p == EffectOf(Linear(l), LinearStep(e)).p && p < l.n && l.pc[p] == L.Out && l.entered[p] == l.left[p] == 0
    ensures Crippled(Linear(l.(flight := l.flight - multiset{e.u})))
  {
    L.LinearIsBarrier(l);
    assert L.UpdateOk(l, e.u) && L.PeOk(l, p);
    LinearLoses(l, e.u.src);
  }

  lemma TreeFirstLoss(t: T.State, e: T.Event, p: nat)
    requires T.Reached(t) && T.Shape(t) && T.Enabled(t, e) && EffectOf(OnTree(t), TreeStep(e)) != NoEffect
    requires p == EffectOf(OnTree(t), TreeStep(e)).p && p < t.tree.n && t.pc[p] == T.Out
             && t.entered[p] == t.left[p] == 0
    ensures Crippled(Lose(OnTree(t), TreeStep(e)))
  {
    T.TreeIsBarrier(t);
    assert T.EdgeOk(t, p) && T.NodeOk(t, p);
    TreeLoses(t, e.p);
  }

  lemma StaysCrippledLosing(b: Bar, e: Step)
    requires Shape(b) && Crippled(b) && AnyBarrier.Enabled(b, e) && !IsCall(e) && EffectOf(b, e) != NoEffect
    ensures Crippled(Lose(b, e))
  {
    match b
    case Linear(l) =>
      var q: nat :| LinearStuck(l, q);
      LinearStaysStuck(l, q, e.le);
    case OnTree(t) =>
      var c: nat :| TreeStuck(t, c);
      TreeStaysStuckLosing(t, c, e.te.p);
    case Dissem(d) =>
  }

  lemma StepKeepsInv(s: State, t: State)
    requires Inv(s) && Next(s, t)
    ensures Inv(t)
  {
    var e :| Enabled(s, e) && t == Apply(s, e);
    match e
    case Own(o) => KeepOwn(s, o);
    case Enter(p) => KeepEnter(s, p);
    case Inside(b) => if Disturbs(s, b) { KeepDisturbed(s, b); } else { KeepUndisturbed(s, b); }
  }

  lemma ReachedInv(s: State)
    requires Reached(s)
    ensures Inv(s)
  {
    forall t | Initial(t) ensures Inv(t) { InitialInv(t); }
    forall t, u | Inv(t) && Next(t, u) ensures Inv(u) { StepKeepsInv(t, u); }
    ReachableInvariant(Initial, Next, Inv, s);
  }

  // ---------------------------------------------------------------- safety

  /** When a PE clears its cell it hands it over to the barrier: from then on the cell is the barrier's, which
      also holds zero there, whatever hit the cell before. */
  lemma HandOver(s: State, p: nat)
    requires Reached(s) && Fits(s) && Enabled(s, Own(C.Run(p))) && s.c.pc[p].Reset?
    ensures InUse(s.c, p) && !InUse(Apply(s, Own(C.Run(p))).c, p)
    ensures Apply(s, Own(C.Run(p))).c.cell[p] == 0 == Cell(Apply(s, Own(C.Run(p))).bar, p)
  {
    ReachedInv(s);
    assert PeFits(s, p);
  }

  /** Whenever a step of the barrier lands on a cell that collect still uses, in whatever place its owner is,
      that PE never returns: it will clear the poke away, and then wait for it in the barrier. */
  lemma HitNeverReturns(s: State, p: nat)
    requires Reached(s) && p in s.hit
    ensures Fits(s) && p < |s.c.sources| && s.c.pc[p] != C.Done
    ensures !s.bar.Dissem? ==> forall q :: 0 <= q < |s.c.sources| ==> s.c.pc[q] != C.Done
  {
    ReachedInv(s);
    assert PeFits(s, p);
    if s.bar.Dissem? {
      LostStaysInside(s.bar.d, s.hit, p);
    } else {
      forall q | 0 <= q < |s.c.sources| ensures s.c.pc[q] != C.Done { assert PeFits(s, q); NobodyLeft(s.bar, q); }
    }
  }

  lemma NobodyLeft(b: Bar, p: nat)
    requires Shape(b) && Crippled(b) && !b.Dissem? && p < Size(b)
    ensures Calls(b).left[p] == 0
  {
    match b
    case Linear(l) => var q: nat :| LinearStuck(l, q); assert NotAcked(l, p);
    case OnTree(t) => var c: nat :| TreeStuck(t, c); assert NotReleased(t, c, p);
  }

  /** With the linear and the tree barrier, and in fcollect with any, a PE that returns has the concatenation in its
      whole target, in every run.  With dissemination it has unless some cell was hit early. */
  lemma ReturnedIsConcatenation(s: State, p: nat)
    requires Reached(s) && Fits(s) && p < |s.c.sources| && s.c.pc[p] == C.Done
    requires s.c.fixed || !s.bar.Dissem? || s.hit == {}
    ensures C.Collected(s.c, p)
  {
    ReachedInv(s);
    if q :| q in s.hit { HitNeverReturns(s, q); }
    C.TargetIsConcatenation(s.c, p);
  }

  /** When all PEs have returned, with any of the barriers and in every run, no cell was hit early and every
      target is the concatenation. */
  lemma AllBackMeansConcatenation(s: State)
    requires Reached(s) && AllDone(s)
    ensures s.hit == {} && forall p: nat :: p < |s.c.sources| ==> C.Collected(s.c, p)
  {
    if q :| q in s.hit { HitNeverReturns(s, q); }
    forall p: nat | p < |s.c.sources| ensures C.Collected(s.c, p) { ReturnedIsConcatenation(s, p); }
  }

  /** Every PE that is sending its slice puts it at the sum of the contributions to its left. */
  ghost predicate OffsetsRight(c: C.State)
    requires C.Shape(c)
  {
    forall p: nat :: p < |c.sources| && c.pc[p].Send? ==> c.pc[p].off == C.Offset(c.sources, p)
  }

  lemma UndisturbedOffsets(s: State)
    requires Reached(s) && s.hit == {}
    ensures Fits(s) && OffsetsRight(s.c)
  {
    ReachedInv(s);
    forall p: nat | p < |s.c.sources| && s.c.pc[p].Send? ensures s.c.pc[p].off == C.Offset(s.c.sources, p) {
      C.OffsetIsPrefixSum(s.c, p);
    }
  }

  // -------------------------------------------------------------- progress

  lemma MovesOn(s: State) returns (e: Event)
    requires Inv(s) && s.hit == {} && C.Starts(s.c) && !AllDone(s)
    ensures Enabled(s, e)
  {
    C.ReachedInv(s.c);
    if p: nat :| p < |s.c.sources| && s.c.calls.entered[p] == 0 {
      var o := C.SomebodyMoves(s.c, p);
      if o.Run? && s.c.pc[o.p].Quiet? {
        assert PeFits(s, o.p);
        OutCanCall(s.bar, o.p);
        e := Enter(o.p);
      } else {
        e := Own(o);
      }
    } else {
      var p: nat :| p < |s.c.sources| && s.c.pc[p] != C.Done;
      assert PeFits(s, p);
      forall q | 0 <= q < Size(s.bar) ensures Calls(s.bar).entered[q] == 1 { assert PeFits(s, q); }
      var b := SomebodyMoves(s.bar, p);
      e := Inside(b);
    }
  }

  lemma OutCanCall(b: Bar, p: nat)
    requires Shape(b) && p < Size(b) && IsOut(b, p)
    ensures AnyBarrier.Enabled(b, CallOf(b, p))
  {
  }

  /** Where a run that has come to its end has everybody back: exactly if no cell was hit early and the first PE
      contributes something, or is alone, or the call is fcollect. */
  lemma EndsWithAllBackExactly(s: State)
    requires Reached(s) && Ended(s)
    ensures Fits(s) && (AllDone(s) <==> s.hit == {} && C.Starts(s.c))
  {
    ReachedInv(s);
    if AllDone(s) {
      AllBackMeansConcatenation(s);
      if !C.Starts(s.c) { C.SecondWaits(s.c); }
    } else if s.hit == {} && C.Starts(s.c) {
      var e := MovesOn(s);
      assert Next(s, Apply(s, e));
    }
  }

  /** What is left to do, as long as nothing was lost. */
  ghost function Work(s: State): nat {
    if Fits(s) then C.Remaining(s.c, PerCall(s.bar)) + Remaining(s.bar) else 0
  }

  lemma WorkLowers(s: State, e: Event)
    requires Inv(s) && s.hit == {} && Enabled(s, e) && Apply(s, e).hit == {}
    ensures Work(Apply(s, e)) < Work(s)
  {
    match e
    case Own(o) => OwnLowers(s, o);
    case Enter(p) => EnterLowers(s, p);
    case Inside(b) => InsideWorkLowers(s, b);
  }

  lemma OwnLowers(s: State, o: C.Event)
    requires Inv(s) && s.hit == {} && Enabled(s, Own(o))
    ensures Work(Apply(s, Own(o))) < Work(s)
  {
    C.ReachedInv(s.c);
    if o.Run? { C.RunLowers(s.c, o.p, PerCall(s.bar)); } else { C.DeliverLowers(s.c, o.m, PerCall(s.bar)); }
  }

  lemma EnterLowers(s: State, p: nat)
    requires Inv(s) && s.hit == {} && Enabled(s, Enter(p))
    ensures Work(Apply(s, Enter(p))) < Work(s)
  {
    C.ReachedInv(s.c);
    C.RunLowers(s.c, p, PerCall(s.bar));
    CallCosts(s.bar, p);
  }

  lemma InsideWorkLowers(s: State, b: Step)
    requires Inv(s) && s.hit == {} && Enabled(s, Inside(b)) && Apply(s, Inside(b)).hit == {}
    ensures Work(Apply(s, Inside(b))) < Work(s)
  {
    C.ReachedInv(s.c);
    InsideLowers(s.bar, b);
    ReturnsLower(s, b, PerCall(s.bar));
  }

  lemma ReturnsLower(s: State, b: Step, inside: nat)
    requires Inv(s) && C.Inv(s.c) && s.hit == {} && Enabled(s, Inside(b))
    ensures C.Remaining(Undisturbed(s, b).c, inside) <= C.Remaining(s.c, inside)
  {
    var p := Returns(s, b);
    if Undisturbed(s, b).c != s.c { C.RunLowers(s.c, p, inside); }
  }

  /** fcollect, and collect on one PE: nothing can be lost. */
  ghost predicate Calm(s: State) {
    Inv(s) && (s.c.fixed || |s.c.sources| == 1)
  }

  lemma CalmHasNoHits(s: State)
    requires Calm(s)
    ensures s.hit == {}
  {
    if s.hit != {} { CrippledHasTwo(s.bar); }
  }

  lemma CrippledHasTwo(b: Bar)
    requires Shape(b) && Crippled(b)
    ensures Size(b) >= 2
  {
  }

  lemma CalmStep(s: State, t: State)
    requires Calm(s) && Next(s, t)
    ensures Calm(t) && Work(t) < Work(s)
  {
    StepKeepsInv(s, t);
    var e :| Enabled(s, e) && t == Apply(s, e);
    SameCall(s, e);
    CalmHasNoHits(s);
    CalmHasNoHits(t);
    WorkLowers(s, e);
  }

  /** No step changes what the call is about. */
  lemma SameCall(s: State, e: Event)
    requires Fits(s) && Enabled(s, e)
    ensures var t := Apply(s, e); t.c.fixed == s.c.fixed && t.c.sources == s.c.sources && t.c.init == s.c.init
    ensures var t := Apply(s, e);
            (t.bar.Linear? <==> s.bar.Linear?) && (t.bar.Dissem? <==> s.bar.Dissem?) && s.hit <= t.hit
  {
  }

  /** Their runs are finite, whatever the schedule. */
  lemma CalmRunsEnd(path: seq<State>)
    requires IsPath(Next, path) && Initial(path[0]) && (path[0].c.fixed || |path[0].c.sources| == 1)
    ensures |path| - 1 <= Work(path[0])
  {
    InitialInv(path[0]);
    forall s, t {:trigger Next(s, t)} | Calm(s) && Next(s, t) ensures Calm(t) && Work(t) < Work(s) { CalmStep(s, t); }
    MeasureBoundsPath(Next, Calm, Work, path);
  }
}
