/** The running sums of collect in every run, whatever the closing barrier does to the cells that hold them: a hit
    makes a sum larger, and nothing ever makes one smaller. */
module CollectSums {
  import opened Runs
  import opened AnyBarrier
  import opened CollectRun
  import opened LostPoke
  import opened Trees
  import opened Bits
  import C = Collect
  import B = BarrierSpec
  import L = BarrierLinear
  import T = BarrierTree
  import D = BarrierDissem
  import E = CollectExactly

  /** The PE has put its sum to its right neighbour. */
  predicate Forwarded(pc: C.Pc) { !pc.Start? && !pc.Forward? }

  /** The running sum of PE p has landed, so that from now on only hits can change its cell. */
  ghost predicate Settled(c: C.State, p: nat)
    requires C.Shape(c) && p < |c.sources|
  {
    && (if p == 0 then !c.pc[0].Start? else Forwarded(c.pc[p - 1]))
    && forall m :: m in c.flight && m.Wave? ==> m.dst != p
  }

  /** The least sum that PE p may have: for the PEs in `lifted` it is more than it should be. */
  ghost function Low(sources: seq<seq<int>>, lifted: set<nat>, p: nat): nat
    requires p <= |sources|
  {
    C.Offset(sources, p) + if p in lifted then 1 else 0
  }

  ghost predicate AtLeast(c: C.State, p: nat, low: nat)
    requires C.Shape(c) && p < |c.sources|
  {
    match c.pc[p]
    case Start => c.cell[p] >= low
    case Forward => c.cell[p] >= low
    case ReadOff => c.cell[p] >= low
    case Send(_, off) => off >= low
    case _ => true
  }

  ghost predicate SumOk(c: C.State, lifted: set<nat>, p: int)
    requires C.Shape(c)
  {
    0 <= p < |c.sources| ==>
      if Settled(c, p) then AtLeast(c, p, Low(c.sources, lifted, p))
      else c.pc[p].Start? && c.cell[p] == 0 && (p in lifted ==> p > 0 && p - 1 in lifted)
  }

  /** At most one sum is on its way to a PE, and whoever is in the barrier has nothing on its way. */
  ghost predicate PutOk(c: C.State, lifted: set<nat>, m: C.Put)
    requires C.Shape(c)
  {
    m in c.flight ==>
      && m.src < |c.sources| && !c.pc[m.src].Closing? && !c.pc[m.src].Done?
      && (m.Wave? ==> m.dst == m.src + 1 < |c.sources| && Forwarded(c.pc[m.src]) && c.flight[m] == 1
                      && m.sum >= Low(c.sources, lifted, m.dst))
  }

  ghost predicate Lone(c: C.State, m: C.Put) {
    m in c.flight && m.Wave? ==> forall o :: o in c.flight && o.Wave? && o.dst == m.dst ==> o == m
  }

  ghost predicate Sums(c: C.State, lifted: set<nat>) {
    && C.Shape(c)
    && (!c.fixed ==> forall p {:trigger SumOk(c, lifted, p)} :: SumOk(c, lifted, p))
    && (!c.fixed ==> forall m {:trigger PutOk(c, lifted, m)} :: PutOk(c, lifted, m))
    && (!c.fixed ==> forall m {:trigger Lone(c, m)} :: Lone(c, m))
  }

  lemma InitialSums(c: C.State)
    requires C.Initial(c)
    ensures Sums(c, {})
  {
    if !c.fixed {
      forall p ensures SumOk(c, {}, p) {}
    }
  }

  /** Whoever is past its wait has everybody to its left behind their sums. */
  lemma {:induction false} Chain(c: C.State, lifted: set<nat>, p: nat, q: nat)
    requires Sums(c, lifted) && !c.fixed && p < q < |c.sources| && !c.pc[q].Start?
    ensures Forwarded(c.pc[p]) && Settled(c, p)
    decreases q
  {
    assert SumOk(c, lifted, q) && SumOk(c, lifted, p);
    if p < q - 1 { Chain(c, lifted, p, q - 1); }
  }

  // ------------------------------------------------------------- own steps

  lemma RunSum(c: C.State, lifted: set<nat>, q: nat, p: int)
    requires Sums(c, lifted) && !c.fixed && C.Enabled(c, C.Run(q)) && !c.pc[q].Forward?
    ensures SumOk(C.Apply(c, C.Run(q)), lifted, p)
  {
    assert SumOk(c, lifted, p);
    SameWaves(c, lifted, q);
    if p == q == 0 { assert C.Offset(c.sources, 0) == 0; }
  }

  lemma SameWaves(c: C.State, lifted: set<nat>, q: nat)
    requires Sums(c, lifted) && !c.fixed && C.Enabled(c, C.Run(q)) && !c.pc[q].Forward?
    ensures var d := C.Apply(c, C.Run(q));
            forall m: C.Put :: m.Wave? ==> (m in d.flight <==> m in c.flight) && (m in c.flight ==> m.dst > 0)
  {
    forall m | m in c.flight && m.Wave? ensures m.dst > 0 { assert PutOk(c, lifted, m); }
  }

  lemma ForwardSum(c: C.State, lifted: set<nat>, q: nat, p: int)
    requires Sums(c, lifted) && !c.fixed && C.Enabled(c, C.Run(q)) && c.pc[q].Forward?
    ensures SumOk(C.Apply(c, C.Run(q)), lifted, p)
  {
    assert SumOk(c, lifted, p) && SumOk(c, lifted, q);
    var d := C.Apply(c, C.Run(q));
    var wave := C.Wave(q, q + 1, c.cell[q] + |c.sources[q]|);
    assert forall m :: m in d.flight <==> m in c.flight || (q + 1 < |c.sources| && m == wave);
  }

  lemma RunPut(c: C.State, lifted: set<nat>, q: nat, m: C.Put)
    requires Sums(c, lifted) && !c.fixed && C.Enabled(c, C.Run(q))
    ensures PutOk(C.Apply(c, C.Run(q)), lifted, m)
  {
    assert PutOk(c, lifted, m) && SumOk(c, lifted, q) && SumOk(c, lifted, q + 1);
  }

  lemma RunLone(c: C.State, lifted: set<nat>, q: nat, m: C.Put)
    requires Sums(c, lifted) && !c.fixed && C.Enabled(c, C.Run(q))
    ensures Lone(C.Apply(c, C.Run(q)), m)
  {
    var d := C.Apply(c, C.Run(q));
    forall o | m in d.flight && m.Wave? && o in d.flight && o.Wave? && o.dst == m.dst ensures o == m {
      assert PutOk(c, lifted, m) && PutOk(c, lifted, o) && Lone(c, m);
    }
  }

  lemma RunSums(c: C.State, lifted: set<nat>, q: nat)
    requires Sums(c, lifted) && C.Enabled(c, C.Run(q))
    ensures Sums(C.Apply(c, C.Run(q)), lifted)
  {
    var d := C.Apply(c, C.Run(q));
    if !c.fixed {
      forall p ensures SumOk(d, lifted, p) {
        if c.pc[q].Forward? { ForwardSum(c, lifted, q, p); } else { RunSum(c, lifted, q, p); }
      }
      forall m ensures PutOk(d, lifted, m) { RunPut(c, lifted, q, m); }
      forall m ensures Lone(d, m) { RunLone(c, lifted, q, m); }
    }
  }

  lemma LandSum(c: C.State, lifted: set<nat>, m: C.Put, p: int)
    requires Sums(c, lifted) && !c.fixed && C.Enabled(c, C.Deliver(m))
    ensures SumOk(C.Apply(c, C.Deliver(m)), lifted, p)
  {
    assert SumOk(c, lifted, p) && PutOk(c, lifted, m) && Lone(c, m);
    var d := C.Apply(c, C.Deliver(m));
    assert forall o :: o in d.flight ==> o in c.flight;
    assert forall o :: o in c.flight && o != m ==> o in d.flight;
  }

  lemma LandSums(c: C.State, lifted: set<nat>, m: C.Put)
    requires Sums(c, lifted) && C.Enabled(c, C.Deliver(m))
    ensures Sums(C.Apply(c, C.Deliver(m)), lifted)
  {
    var d := C.Apply(c, C.Deliver(m));
    if !c.fixed {
      forall p ensures SumOk(d, lifted, p) { LandSum(c, lifted, m, p); }
      forall o ensures PutOk(d, lifted, o) { assert PutOk(c, lifted, o); }
      forall o ensures Lone(d, o) { assert Lone(c, o); }
    }
  }

  // ------------------------------------------------------ inside the barrier

  /** Who hits a cell that collect still uses: a PE further to the right, or the left neighbour, and it has called
      the barrier. */
  lemma Hitter(s: State, b: Step, p: nat) returns (q: nat)
    requires Inv(s) && CollectRun.Enabled(s, Inside(b)) && EffectOf(s.bar, b) == Adds(p) && p < |s.c.sources|
             && InUse(s.c, p)
    ensures q < |s.c.sources| && (q > p || q + 1 == p) && (s.c.pc[q].Closing? || s.c.pc[q].Done?)
  {
    match s.bar {
      case Linear(l) => q := LinearHitter(s, l, b.le, p);
      case OnTree(t) => q := TreeHitter(s, t, b.te, p);
      case Dissem(d) => q := DissemHitter(s, d, b.de, p);
    }
    HasEntered(s, q);
  }

  lemma HasEntered(s: State, q: nat)
    requires Inv(s) && q < |s.c.sources| && Calls(s.bar).entered[q] > 0
    ensures s.c.pc[q].Closing? || s.c.pc[q].Done?
  {
    assert PeFits(s, q);
  }

  lemma LinearHitter(s: State, l: L.State, e: L.Event, p: nat) returns (q: nat)
    requires Inv(s) && s.bar == Linear(l) && L.Enabled(l, e) && EffectOf(s.bar, LinearStep(e)) == Adds(p)
    ensures p == 0 < q < l.n && l.entered[q] > 0
  {
    q := e.u.src;
    if s.hit == {} {
      L.LinearIsBarrier(l);
      assert L.UpdateOk(l, e.u) && L.PeOk(l, q);
    } else {
      var x: nat :| LinearStuck(l, x);
      assert NotAcked(l, q) && PeFits(s, q);
    }
  }

  lemma TreeHitter(s: State, t: T.State, e: T.Event, p: nat) returns (q: nat)
    requires Inv(s) && s.bar == OnTree(t) && T.Enabled(t, e) && EffectOf(s.bar, TreeStep(e)) == Adds(p)
    requires p < |s.c.sources| && InUse(s.c, p)
    ensures p < q < t.tree.n && t.entered[q] > 0
  {
    if e.Deliver? { ReleaseHitsNobody(s, t, e.dst); }
    q := e.p;
    assert PeFits(s, q);
  }

  lemma ReleaseHitsNobody(s: State, t: T.State, p: nat)
    requires Inv(s) && s.bar == OnTree(t) && T.Enabled(t, T.Deliver(p)) && p < |s.c.sources|
    ensures !InUse(s.c, p)
  {
    assert PeFits(s, p);
    if s.hit == {} {
      T.TreeIsBarrier(t);
      assert T.EdgeOk(t, p) && T.NodeOk(t, p);
    }
  }

  lemma DissemHitter(s: State, d: D.State, e: D.Event, p: nat) returns (q: nat)
    requires Inv(s) && s.bar == Dissem(d) && D.Enabled(d, e) && EffectOf(s.bar, DissemStep(e)) == Adds(p)
    ensures q < d.n && d.entered[q] > 0 && (q > p || q + 1 == p)
  {
    assert Exp2(0) == 1;
    assert OneCall(d, s.hit, p);
    q := Behind(d.n, p, 1);
    assert OneCall(d, s.hit, q);
  }

  /** So whenever a cell that collect still uses is hit, its running sum has landed. */
  lemma HitIsSettled(s: State, lifted: set<nat>, b: Step, p: nat)
    requires Inv(s) && Sums(s.c, lifted) && CollectRun.Enabled(s, Inside(b))
    requires EffectOf(s.bar, b) == Adds(p) && p < |s.c.sources| && InUse(s.c, p)
    ensures Settled(s.c, p)
  {
    var q := Hitter(s, b, p);
    if q > p {
      Chain(s.c, lifted, p, q);
    } else {
      forall m | m in s.c.flight && m.Wave? ensures m.dst != p { assert PutOk(s.c, lifted, m); }
    }
  }

  /** Once a poke is lost no acknowledgement is ever sent, and before that they only go to PEs in the barrier. */
  lemma HitsAdd(s: State, b: Step)
    requires Inv(s) && CollectRun.Enabled(s, Inside(b)) && Disturbs(s, b)
    ensures EffectOf(s.bar, b).Adds?
  {
    if s.bar.Linear? && b.le.Deliver? && b.le.u.Ack? {
      if s.hit != {} { OnlyAdds(s.bar, b); } else { AckHitsNobody(s, s.bar.l, b.le.u); }
    }
  }

  lemma OnlyAdds(b: Bar, e: Step)
    requires AnyBarrier.Shape(b) && Crippled(b) && AnyBarrier.Enabled(b, e)
    ensures !EffectOf(b, e).Puts?
  {
    if b.Linear? { var q: nat :| LinearStuck(b.l, q); }
  }

  lemma AckHitsNobody(s: State, l: L.State, u: L.Update)
    requires Inv(s) && s.hit == {} && s.bar == Linear(l) && u in l.flight && u.Ack? && u.dst < |s.c.sources|
    ensures !InUse(s.c, u.dst)
  {
    L.LinearIsBarrier(l);
    assert L.UpdateOk(l, u) && L.PeOk(l, u.dst) && PeFits(s, u.dst);
  }

  lemma Bumped(c: C.State, lifted: set<nat>, p: nat, d: C.State)
    requires Sums(c, lifted) && p < |c.sources| && (!c.fixed ==> Settled(c, p))
    requires d == OneMore(c, p)
    ensures Sums(d, lifted)
  {
    if !c.fixed {
      forall q ensures SumOk(d, lifted, q) { assert SumOk(c, lifted, q); }
      forall m ensures PutOk(d, lifted, m) { assert PutOk(c, lifted, m); }
      forall m ensures Lone(d, m) { assert Lone(c, m); }
    }
  }

  lemma ReturnedSums(c: C.State, lifted: set<nat>, calls: B.Calls)
    requires Sums(c, lifted) && |calls.entered| == |calls.left| == |c.sources|
    ensures Sums(Returned(c, calls), lifted)
  {
    var d := Returned(c, calls);
    if !c.fixed {
      forall q ensures SumOk(d, lifted, q) { assert SumOk(c, lifted, q); }
      forall m ensures PutOk(d, lifted, m) { assert PutOk(c, lifted, m); }
      forall m ensures Lone(d, m) { assert Lone(c, m); }
    }
  }

  lemma InsideSums(s: State, lifted: set<nat>, b: Step)
    requires Inv(s) && Sums(s.c, lifted) && CollectRun.Enabled(s, Inside(b))
    ensures Sums(CollectRun.Apply(s, Inside(b)).c, lifted)
  {
    if Disturbs(s, b) {
      var p := EffectOf(s.bar, b).p;
      HitsAdd(s, b);
      HitIsSettled(s, lifted, b, p);
      Bumped(s.c, lifted, p, CollectRun.Apply(s, Inside(b)).c);
    } else {
      CountersSized(AnyBarrier.Apply(s.bar, b));
      ReturnedSums(s.c, lifted, Calls(AnyBarrier.Apply(s.bar, b)));
    }
  }

  // -------------------------------------------------------------- results

  /** What is known of the sums in a run. */
  ghost predicate Known(s: State, lifted: set<nat>) { Inv(s) && Sums(s.c, lifted) }

  lemma StepKeeps(s: State, t: State, lifted: set<nat>)
    requires Known(s, lifted) && CollectRun.Next(s, t)
    ensures Known(t, lifted)
  {
    StepKeepsInv(s, t);
    var e :| CollectRun.Enabled(s, e) && t == CollectRun.Apply(s, e);
    match e
    case Own(o) => if o.Run? { RunSums(s.c, lifted, o.p); } else { LandSums(s.c, lifted, o.m); }
    case Enter(p) => RunSums(s.c, lifted, p);
    case Inside(b) => InsideSums(s, lifted, b);
  }

  lemma ReachedKnown(s: State)
    requires CollectRun.Reached(s)
    ensures Known(s, {})
  {
    forall t | CollectRun.Initial(t) ensures Known(t, {}) { InitialInv(t); InitialSums(t.c); }
    forall t, u | Known(t, {}) && CollectRun.Next(t, u) ensures Known(u, {}) { StepKeeps(t, u, {}); }
    ReachableInvariant(CollectRun.Initial, CollectRun.Next, (t: State) => Known(t, {}), s);
  }

  lemma StaysKnown(s: State, t: State, lifted: set<nat>)
    requires Known(s, lifted) && E.From(s, t)
    ensures Known(t, lifted) && t.c.sources == s.c.sources && t.c.fixed == s.c.fixed
  {
    var path :| IsPath(CollectRun.Next, path) && path[0] == s && path[|path| - 1] == t;
    forall u, v | Known(u, lifted) && CollectRun.Next(u, v) ensures Known(v, lifted) { StepKeeps(u, v, lifted); }
    PathKeeps(CollectRun.Next, (u: State) => Known(u, lifted), path);
    E.FromSameInput(s, t);
  }

  /** A running sum lands only while its PE still waits for it, in a cell that is zero: it never overwrites a hit,
      nor a cell that collect has cleared for the barrier. */
  lemma SumsLandInTime(s: State, m: C.Put)
    requires CollectRun.Reached(s) && Fits(s) && m in s.c.flight && m.Wave? && !s.c.fixed
    ensures m.dst < |s.c.sources| && s.c.pc[m.dst] == C.Start && s.c.cell[m.dst] == 0
  {
    ReachedKnown(s);
    assert PutOk(s.c, {}, m) && SumOk(s.c, {}, m.dst);
  }

  /** No PE ever puts its slice too far to the left. */
  lemma SumsNeverShort(s: State, p: nat)
    requires CollectRun.Reached(s) && Fits(s) && p < |s.c.sources| && s.c.pc[p].Send?
    ensures !s.c.fixed ==> s.c.pc[p].off >= C.Offset(s.c.sources, p)
  {
    ReachedKnown(s);
    if !s.c.fixed { assert SumOk(s.c, {}, p); }
  }

  /** PE p has not read its offset yet. */
  ghost predicate NotRead(c: C.State, p: nat)
    requires C.Shape(c) && p < |c.sources|
  {
    !c.fixed && (c.pc[p].Start? || c.pc[p].Forward? || c.pc[p].ReadOff?)
  }

  /** A hit on PE p concerns p and, if p has not forwarded its sum, everybody to its right. */
  ghost predicate Concerns(c: C.State, p: nat, q: nat)
    requires C.Shape(c) && p < |c.sources|
  {
    q == p || (q > p && !Forwarded(c.pc[p]))
  }

  ghost function Misled(c: C.State, p: nat): set<nat>
    requires C.Shape(c) && p < |c.sources|
  {
    set q: nat | q < |c.sources| && Concerns(c, p, q)
  }

  /** To the right of a PE that has not forwarded its sum nobody has one, nor is one on its way there. */
  lemma RightOfUnsent(c: C.State, p: nat, q: nat)
    requires Sums(c, {}) && !c.fixed && p < q < |c.sources| && !Forwarded(c.pc[p])
    ensures !Settled(c, q)
    ensures forall m :: m in c.flight && m.Wave? ==> m.dst != q
  {
    if q - 1 > p && !c.pc[q - 1].Start? { Chain(c, {}, p, q - 1); }
    forall m | m in c.flight && m.Wave? ensures m.dst != q { assert PutOk(c, {}, m); }
  }

  lemma Lift(c: C.State, p: nat)
    requires Sums(c, {}) && p < |c.sources| && NotRead(c, p) && Settled(c, p) && c.cell[p] > C.Offset(c.sources, p)
    ensures Sums(c, Misled(c, p))
  {
    var lifted := Misled(c, p);
    forall q ensures SumOk(c, lifted, q) {
      assert SumOk(c, {}, q);
      if p < q < |c.sources| && q in lifted { RightOfUnsent(c, p, q); }
    }
    forall m ensures PutOk(c, lifted, m) {
      assert PutOk(c, {}, m);
      if m in c.flight && m.Wave? && m.dst in lifted && m.dst > p { RightOfUnsent(c, p, m.dst); }
    }
  }

  lemma HitMisleads(s: State, b: Step, p: nat)
    requires Known(s, {}) && CollectRun.Enabled(s, Inside(b)) && EffectOf(s.bar, b) == Adds(p) && p < |s.c.sources|
    requires NotRead(s.c, p)
    ensures var t := CollectRun.Apply(s, Inside(b)); Known(t, Misled(s.c, p))
  {
    HitIsSettled(s, {}, b, p);
    HitLands(s, b, p);
    LiftHit(s.c, p, CollectRun.Apply(s, Inside(b)).c);
  }

  lemma HitLands(s: State, b: Step, p: nat)
    requires Known(s, {}) && CollectRun.Enabled(s, Inside(b)) && EffectOf(s.bar, b) == Adds(p) && p < |s.c.sources|
    requires NotRead(s.c, p)
    ensures var t := CollectRun.Apply(s, Inside(b)); Known(t, {}) && t.c == OneMore(s.c, p)
  {
    var t := CollectRun.Apply(s, Inside(b));
    assert CollectRun.Next(s, t);
    HitAdds(s, b, p);
    StepKeeps(s, t, {});
  }

  lemma LiftHit(c: C.State, p: nat, d: C.State)
    requires Sums(c, {}) && Sums(d, {}) && p < |c.sources| && NotRead(c, p) && Settled(c, p)
    requires d == OneMore(c, p)
    ensures Sums(d, Misled(c, p))
  {
    assert SumOk(c, {}, p) && Misled(d, p) == Misled(c, p);
    Lift(d, p);
  }

  /** Whenever a poke hits the cell of a PE that has not read its offset, however often cells were hit before, that PE
      will not put its slice anywhere but too far to the right, in every continuation of the run; and if it had not
      forwarded its sum either, the same holds of every PE to its right. */
  lemma HitMovesSlices(s: State, b: Step, p: nat, u: State, q: nat)
    requires CollectRun.Reached(s) && Fits(s) && CollectRun.Enabled(s, Inside(b))
    requires EffectOf(s.bar, b) == Adds(p) && p < |s.c.sources| && NotRead(s.c, p)
    requires E.From(CollectRun.Apply(s, Inside(b)), u)
    requires q < |s.c.sources| && Concerns(s.c, p, q)
    ensures Fits(u) && q < |u.c.sources| && u.c.sources == s.c.sources
    ensures u.c.pc[q].Send? ==> u.c.pc[q].off > C.Offset(u.c.sources, q)
  {
    ReachedKnown(s);
    HitMisleads(s, b, p);
    SameCall(s, Inside(b));
    var lifted := Misled(s.c, p);
    StaysKnown(CollectRun.Apply(s, Inside(b)), u, lifted);
    assert SumOk(u.c, lifted, q) && q in lifted;
  }
}
