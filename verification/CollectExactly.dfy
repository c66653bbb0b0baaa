/** Exactly when collect keeps its promises: for every number of PEs, all contributions and each barrier. */
module CollectExactly {
  import opened Runs
  import opened AnyBarrier
  import opened CollectRun
  import opened LostPoke
  import opened Bits
  import opened Trees
  import C = Collect
  import B = BarrierSpec
  import L = BarrierLinear
  import T = BarrierTree
  import D = BarrierDissem

  /** A run leads from i to s. */
  ghost predicate From(i: State, s: State) {
    exists path :: IsPath(CollectRun.Next, path) && path[0] == i && path[|path| - 1] == s
  }

  lemma Here(i: State)
    ensures From(i, i)
  {
    assert IsPath(CollectRun.Next, [i]);
  }

  lemma Further(i: State, s: State, t: State)
    requires From(i, s) && CollectRun.Next(s, t)
    ensures From(i, t)
  {
    var path :| IsPath(CollectRun.Next, path) && path[0] == i && path[|path| - 1] == s;
    LongerPath(CollectRun.Next, path, t);
    assert (path + [t])[0] == i;
  }

  lemma FromIsReached(i: State, s: State)
    requires CollectRun.Initial(i) && From(i, s)
    ensures CollectRun.Reached(s) && CollectRun.Inv(s)
  {
    IsReached(i, s);
    CollectRun.ReachedInv(s);
  }

  lemma IsReached(i: State, s: State)
    requires CollectRun.Initial(i) && From(i, s)
    ensures CollectRun.Reached(s)
  {
    var path :| IsPath(CollectRun.Next, path) && path[0] == i && path[|path| - 1] == s;
    RunIsPath(CollectRun.Initial, CollectRun.Next, path);
  }

  lemma SameOnStep(s: State, t: State)
    requires CollectRun.Next(s, t)
    ensures SameInput(s, t)
  {
    var e :| CollectRun.Enabled(s, e) && t == CollectRun.Apply(s, e);
    SameCall(s, e);
  }

  ghost predicate SameInput(i: State, s: State) {
    && s.c.fixed == i.c.fixed && s.c.sources == i.c.sources && s.c.init == i.c.init
    && (s.bar.Linear? <==> i.bar.Linear?) && (s.bar.Dissem? <==> i.bar.Dissem?)
  }

  lemma FromSameInput(i: State, s: State)
    requires From(i, s)
    ensures SameInput(i, s)
  {
    var path :| IsPath(CollectRun.Next, path) && path[0] == i && path[|path| - 1] == s;
    forall t, u | SameInput(i, t) && CollectRun.Next(t, u) ensures SameInput(i, u) { SameOnStep(t, u); }
    PathKeeps(CollectRun.Next, (t: State) => SameInput(i, t), path);
  }

  /** One step further on a run from an initial state. */
  lemma Go(i: State, s: State, e: CollectRun.Event) returns (t: State)
    requires From(i, s) && Fits(s) && CollectRun.Enabled(s, e)
    ensures From(i, t) && Fits(t) && t == CollectRun.Apply(s, e)
  {
    t := CollectRun.Apply(s, e);
    assert CollectRun.Next(s, t);
    Further(i, s, t);
  }

  // ------------------------------------------------------------- the race

  /** Nobody has called the barrier, and it is as it was. */
  ghost predicate Fresh(i: State, s: State) {
    && CollectRun.Initial(i) && From(i, s) && CollectRun.Inv(s) && s.hit == {} && s.bar == i.bar && SameInput(i, s)
    && C.Inv(s.c)
  }

  lemma FreshOwn(i: State, s: State, o: C.Event) returns (t: State)
    requires Fresh(i, s) && CollectRun.Enabled(s, Own(o))
    ensures Fresh(i, t) && t == CollectRun.Apply(s, Own(o))
  {
    t := Go(i, s, Own(o));
    FromIsReached(i, t);
    FromSameInput(i, t);
    C.ReachedInv(t.c);
  }

  lemma Start(i: State)
    requires CollectRun.Initial(i)
    ensures Fresh(i, i)
  {
    Here(i);
    FromIsReached(i, i);
    C.ReachedInv(i.c);
  }

  /** Everybody forwards its sum and then pauses before reading its offset, but the last PE goes on to the barrier. */
  lemma {:induction false} Park(i: State, s: State) returns (t: State)
    requires Fresh(i, s) && C.Parked(s.c) && C.Starts(s.c) && |s.c.sources| > 1
    ensures Fresh(i, t) && C.Parked(t.c) && C.LastIsReady(t.c)
    decreases C.Remaining(s.c, 0)
  {
    if C.LastIsReady(s.c) {
      t := s;
    } else {
      var o := C.ParkStep(s.c);
      var u := FreshOwn(i, s, o);
      if o.Run? { C.RunLowers(s.c, o.p, 0); } else { C.DeliverLowers(s.c, o.m, 0); }
      t := Park(i, u);
    }
  }

  /** A PE calls the barrier, the first to do so. */
  lemma CallsFirst(i: State, s: State, p: nat) returns (t: State)
    requires Fresh(i, s) && p < |s.c.sources| && s.c.pc[p].Quiet? && s.c.flight == multiset{}
    ensures From(i, t) && Fits(t)
    ensures t.c == s.c.(pc := s.c.pc[p := C.Closing], calls := t.c.calls) && t.hit == {}
    ensures HasCalled(i.bar, t.bar, p)
  {
    assert PeFits(s, p);
    OutCanCall(s.bar, p);
    t := Go(i, s, Enter(p));
  }

  /** PE p, and nobody else, has called the barrier. */
  ghost predicate HasCalled(b: Bar, r: Bar, p: nat) {
    AnyBarrier.Initial(b) && p < Size(b) && AnyBarrier.Enabled(b, CallOf(b, p))
      && r == AnyBarrier.Apply(b, CallOf(b, p))
  }

  /** A step inside the barrier that lands on a cell in use. */
  lemma HitCell(i: State, s: State, b: Step, p: nat) returns (t: State)
    requires From(i, s) && Fits(s) && CollectRun.Enabled(s, Inside(b))
    requires EffectOf(s.bar, b) == Adds(p) && p < |s.c.sources| && InUse(s.c, p)
    ensures From(i, t) && Fits(t) && t.c == OneMore(s.c, p)
    ensures t.hit == s.hit + {p} && t.bar == Lose(s.bar, b)
  {
    HitAdds(s, b, p);
    t := Go(i, s, Inside(b));
  }

  /** A step inside the barrier that disturbs nobody and lets nobody out. */
  lemma Quietly(i: State, s: State, b: Step) returns (t: State)
    requires From(i, s) && Fits(s) && CollectRun.Enabled(s, Inside(b))
    requires !Disturbs(s, b) && Calls(AnyBarrier.Apply(s.bar, b)) == Calls(s.bar)
    ensures From(i, t) && Fits(t) && t == s.(bar := AnyBarrier.Apply(s.bar, b))
  {
    t := Go(i, s, Inside(b));
    assert t.c.pc == s.c.pc;
  }

  lemma LinearPoke(l: L.State, last: nat)
    requires L.Initial(l) && 0 < last < l.n
    ensures L.Enabled(l, L.Call(last))
    ensures var m := L.Apply(l, L.Call(last));
            && L.Enabled(m, L.Run(last))
            && var k := L.Apply(m, L.Run(last));
               && k.entered == m.entered && k.left == m.left && k.flight == multiset{L.Poke(last)}
               && L.Enabled(k, L.Deliver(L.Poke(last)))
  {
  }

  lemma LinearRace(i: State, s: State, l: L.State) returns (t: State)
    requires From(i, s) && Fits(s) && |s.c.sources| > 1 && InUse(s.c, 0) && L.Initial(l) && l.n == |s.c.sources|
    requires L.Enabled(l, L.Call(l.n - 1)) && s.bar == Linear(L.Apply(l, L.Call(l.n - 1)))
    ensures From(i, t) && Fits(t) && t.c == OneMore(s.c, 0)
  {
    LinearPoke(l, l.n - 1);
    var u := Quietly(i, s, LinearStep(L.Run(l.n - 1)));
    t := HitCell(i, u, LinearStep(L.Deliver(L.Poke(l.n - 1))), 0);
  }

  lemma DissemPoke(d: D.State, q: nat)
    requires D.Initial(d) && d.n > 1 && q < d.n
    ensures D.Enabled(d, D.Call(q)) && d.rounds > 0
    ensures var m := D.Apply(d, D.Call(q));
            && D.Enabled(m, D.Run(q))
            && var k := D.Apply(m, D.Run(q));
               var next := D.Increment(if q + 1 < d.n then q + 1 else 0, 0);
               && k == m.(flight := multiset{next}, pc := m.pc[q := D.Wait(0)])
               && D.Enabled(k, D.Deliver(next))
  {
    assert Exp2(0) == 1;
    AheadIsModulo(d.n, q, 1);
  }

  lemma DissemRace(i: State, s: State, d: D.State, q: nat, p: nat) returns (t: State)
    requires From(i, s) && Fits(s) && |s.c.sources| > 1 && D.Initial(d) && d.n == |s.c.sources|
    requires q < d.n && p == (if q + 1 < d.n then q + 1 else 0) && InUse(s.c, p)
    requires D.Enabled(d, D.Call(q)) && s.bar == Dissem(D.Apply(d, D.Call(q)))
    ensures From(i, t) && Fits(t) && t.c == OneMore(s.c, p)
    ensures t.hit == s.hit + {p} && t.bar == Dissem(s.bar.d.(pc := s.bar.d.pc[q := D.Wait(0)]))
  {
    DissemPoke(d, q);
    var u := Quietly(i, s, DissemStep(D.Run(q)));
    t := HitCell(i, u, DissemStep(D.Deliver(D.Increment(p, 0))), p);
    assert t.bar.d.flight == s.bar.d.flight;
  }

  lemma KidAbove(t: Tree, p: nat, j: nat)
    requires IsTree(t) && p < t.n && j < |t.kids[p]|
    ensures p < t.kids[p][j] < t.n
  {
    assert t.kids[p][j] in t.kids[p];
  }

  lemma LeafAtEnd(t: Tree)
    requires IsTree(t)
    ensures t.kids[t.n - 1] == []
  {
    if t.kids[t.n - 1] != [] { KidAbove(t, t.n - 1, 0); }
  }

  lemma TreePoke(t: T.State, last: nat)
    requires T.Initial(t) && 0 < last == t.tree.n - 1
    ensures T.Enabled(t, T.Call(last)) && 0 <= t.tree.parent[last] < last
    ensures var m := T.Apply(t, T.Call(last));
            && T.Enabled(m, T.Run(last)) && m.pc[last].WaitKids?
            && var k := T.Apply(m, T.Run(last));
               && k.entered == m.entered && k.left == m.left && k.tree == t.tree
               && T.Enabled(k, T.Run(last)) && k.pc[last].PokeParent?
  {
    LeafAtEnd(t.tree);
  }

  lemma TreeRace(i: State, s: State, b: T.State, p: nat) returns (t: State)
    requires From(i, s) && Fits(s) && |s.c.sources| > 1 && T.Initial(b) && b.tree.n == |s.c.sources|
    requires p == b.tree.parent[b.tree.n - 1] && p < |s.c.sources| && InUse(s.c, p)
    requires T.Enabled(b, T.Call(b.tree.n - 1)) && s.bar == OnTree(T.Apply(b, T.Call(b.tree.n - 1)))
    ensures From(i, t) && Fits(t) && t.c == OneMore(s.c, p)
  {
    var last := b.tree.n - 1;
    TreePoke(b, last);
    var u := Quietly(i, s, TreeStep(T.Run(last)));
    t := TreeHits(i, u, last, p);
  }

  lemma TreeHits(i: State, s: State, last: nat, p: nat) returns (t: State)
    requires From(i, s) && Fits(s) && s.bar.OnTree? && p < |s.c.sources| && InUse(s.c, p)
    requires T.Enabled(s.bar.t, T.Run(last)) && s.bar.t.pc[last].PokeParent? && p == s.bar.t.tree.parent[last]
    ensures From(i, t) && Fits(t) && t.c == OneMore(s.c, p)
  {
    t := HitCell(i, s, TreeStep(T.Run(last)), p);
  }

  /** In each barrier the last PE's poke finds a PE that still has to read its offset. */
  lemma LastPokes(i: State, s: State, b: Bar) returns (t: State, p: nat)
    requires From(i, s) && Fits(s) && |s.c.sources| > 1 && Size(b) == |s.c.sources|
    requires HasCalled(b, s.bar, |s.c.sources| - 1) && OthersAboutToRead(s.c)
    ensures p < |s.c.sources| - 1 && AboutToRead(s.c, p) && Bumped(i, s, t, p)
  {
    p := if b.OnTree? then ParentOfLast(b) else 0;
    assert AboutToRead(s.c, p);
    if b.Linear? {
      t := LinearLast(i, s, b);
    } else if b.OnTree? {
      t := TreeLast(i, s, b, p);
    } else {
      t := DissemLast(i, s, b);
    }
  }

  /** A run goes on to t, where the cell of p is one higher. */
  ghost predicate Bumped(i: State, s: State, t: State, p: nat) {
    From(i, t) && Fits(t) && p < |s.c.cell| && t.c == OneMore(s.c, p)
  }

  lemma LinearLast(i: State, s: State, b: Bar) returns (t: State)
    requires From(i, s) && Fits(s) && |s.c.sources| > 1 && Size(b) == |s.c.sources| && b.Linear?
    requires HasCalled(b, s.bar, |s.c.sources| - 1) && AboutToRead(s.c, 0)
    ensures Bumped(i, s, t, 0)
  {
    t := LinearRace(i, s, b.l);
  }

  lemma TreeLast(i: State, s: State, b: Bar, p: nat) returns (t: State)
    requires From(i, s) && Fits(s) && |s.c.sources| > 1 && Size(b) == |s.c.sources| && b.OnTree?
    requires HasCalled(b, s.bar, |s.c.sources| - 1) && p == ParentOfLast(b) && AboutToRead(s.c, p)
    ensures Bumped(i, s, t, p)
  {
    t := TreeRace(i, s, b.t, p);
  }

  lemma DissemLast(i: State, s: State, b: Bar) returns (t: State)
    requires From(i, s) && Fits(s) && |s.c.sources| > 1 && Size(b) == |s.c.sources| && b.Dissem?
    requires HasCalled(b, s.bar, |s.c.sources| - 1) && AboutToRead(s.c, 0)
    ensures Bumped(i, s, t, 0)
  {
    t := DissemRace(i, s, b.d, |s.c.sources| - 1, 0);
  }

  ghost predicate AboutToRead(c: C.State, q: int)
    requires C.Shape(c)
  {
    0 <= q < |c.sources| - 1 ==> !c.fixed && c.pc[q].ReadOff? && c.cell[q] == C.Offset(c.sources, q)
  }

  ghost predicate OthersAboutToRead(c: C.State)
    requires C.Shape(c)
  {
    forall q {:trigger AboutToRead(c, q)} :: AboutToRead(c, q)
  }

  ghost function ParentOfLast(b: Bar): (p: nat)
    requires AnyBarrier.Initial(b) && b.OnTree? && Size(b) > 1
    ensures p < Size(b) - 1
  {
    b.t.tree.parent[b.t.tree.n - 1]
  }

  lemma ReadsOffset(i: State, s: State, p: nat) returns (t: State)
    requires From(i, s) && Fits(s) && p < |s.c.sources| && s.c.pc[p].ReadOff?
    ensures From(i, t) && Fits(t) && t == s.(c := s.c.(pc := s.c.pc[p := C.Send(0, s.c.cell[p])]))
  {
    t := Go(i, s, Own(C.Run(p)));
  }

  /** So with two PEs or more, whatever they contribute and with each barrier, some run has a PE put its slice one
      element too far. */
  lemma Race(i: State) returns (t: State, p: nat)
    requires CollectRun.Initial(i) && !i.c.fixed && |i.c.sources| > 1 && C.Starts(i.c)
    ensures From(i, t) && Fits(t) && t.c.sources == i.c.sources && p < |i.c.sources| - 1
    ensures t.c.pc[p] == C.Send(0, C.Offset(i.c.sources, p) + 1)
    ensures t.c.pc[1] != C.Start
  {
    var paused := Paused(i);
    var hit: State;
    hit, p := LastPokes(i, paused, i.bar);
    assert AboutToRead(paused.c, 1);
    t := ReadsOffset(i, hit, p);
  }

  /** The last PE is in the barrier and all others have their own offsets still to read. */
  lemma Paused(i: State) returns (s: State)
    requires CollectRun.Initial(i) && !i.c.fixed && |i.c.sources| > 1 && C.Starts(i.c)
    ensures From(i, s) && Fits(s) && s.c.sources == i.c.sources && HasCalled(i.bar, s.bar, |s.c.sources| - 1)
    ensures s.c.pc[|s.c.sources| - 1].Closing? && s.c.flight == multiset{} && s.hit == {}
    ensures OthersAboutToRead(s.c)
  {
    Start(i);
    var parked := Park(i, i);
    s := LastCalls(i, parked);
  }

  lemma LastCalls(i: State, s: State) returns (t: State)
    requires Fresh(i, s) && C.Parked(s.c) && C.LastIsReady(s.c) && |s.c.sources| > 1
    ensures From(i, t) && Fits(t) && t.c.sources == s.c.sources && HasCalled(i.bar, t.bar, |t.c.sources| - 1)
    ensures t.c.pc[|t.c.sources| - 1].Closing? && t.c.flight == multiset{} && t.hit == {}
    ensures OthersAboutToRead(t.c)
  {
    t := CallsFirst(i, s, |s.c.sources| - 1);
    StillAboutToRead(s.c, t.c);
  }

  lemma StillAboutToRead(c: C.State, d: C.State)
    requires C.Inv(c) && C.Parked(c) && C.LastIsReady(c) && C.Shape(d)
    requires d == c.(pc := c.pc[|c.sources| - 1 := C.Closing], calls := d.calls)
    ensures OthersAboutToRead(d)
  {
    forall q ensures AboutToRead(d, q) {
      if 0 <= q < |c.sources| - 1 { PausedCell(c, q); }
    }
  }

  /** A PE that has forwarded its sum has its own offset in its cell. */
  lemma PausedCell(c: C.State, p: nat)
    requires C.Inv(c) && C.Parked(c) && C.LastIsReady(c) && p < |c.sources| - 1
    ensures c.pc[p].ReadOff? && c.cell[p] == C.Offset(c.sources, p)
  {
    assert C.WaveOk(c, p) && C.WaveOk(c, p + 1);
  }

  // --------------------------------------------------- an empty first contribution

  lemma {:induction false} GoAlone(i: State, s: State) returns (t: State)
    requires Fresh(i, s) && C.Alone(s.c)
    ensures Fresh(i, t) && C.Alone(t.c) && t.c.pc[0].Quiet? && t.c.flight == multiset{}
    decreases C.Remaining(s.c, 0)
  {
    if s.c.pc[0].Quiet? && s.c.flight == multiset{} {
      t := s;
    } else {
      var o := C.AloneStep(s.c);
      var u := FreshOwn(i, s, o);
      if o.Run? { C.RunLowers(s.c, o.p, 0); } else { C.DeliverLowers(s.c, o.m, 0); }
      t := GoAlone(i, u);
    }
  }

  /** With dissemination the first PE's first poke wakes the second, which takes it for a running sum. */
  lemma FalseWake(i: State) returns (t: State)
    requires CollectRun.Initial(i) && i.bar.Dissem? && !C.Starts(i.c)
    ensures From(i, t) && Fits(t) && t.c.sources == i.c.sources && |i.c.sources| > 1
    ensures t.c.pc[1] == C.Send(0, C.Offset(i.c.sources, 1) + 1)
  {
    var called := FirstCalls(i);
    C.EmptyFirstSum(i.c.sources);
    var hit := DissemRace(i, called, i.bar.d, 0, 1);
    t := SecondReads(i, hit);
  }

  lemma FirstCalls(i: State) returns (s: State)
    requires CollectRun.Initial(i) && i.bar.Dissem? && !C.Starts(i.c)
    ensures From(i, s) && Fits(s) && s.c.sources == i.c.sources && |i.c.sources| > 1 && !s.c.fixed
    ensures s.c.pc[0].Closing? && s.c.pc[1].Start? && s.c.cell[1] == 0 && s.c.flight == multiset{} && s.hit == {}
    ensures HasCalled(i.bar, s.bar, 0)
  {
    Start(i);
    var alone := GoAlone(i, i);
    C.SecondWaits(alone.c);
    s := CallsFirst(i, alone, 0);
  }

  /** A PE with a non-zero cell goes through its wait and uses what it finds. */
  lemma SecondReads(i: State, s: State) returns (t: State)
    requires From(i, s) && Fits(s) && |s.c.sources| > 1 && s.c.pc[1].Start? && s.c.cell[1] != 0
    ensures From(i, t) && Fits(t) && t.c.sources == s.c.sources && t.c.pc[1] == C.Send(0, s.c.cell[1])
  {
    t := Go(i, s, Own(C.Run(1)));
    t := Go(i, t, Own(C.Run(1)));
    t := Go(i, t, Own(C.Run(1)));
  }

  /** With an empty first contribution only the first PE can reach a barrier. */
  lemma {:induction false} OthersAtStart(c: C.State, q: nat)
    requires C.Reached(c) && C.Inv(c) && !C.Starts(c) && 1 <= q < |c.sources|
    ensures c.pc[q].Start?
    decreases q
  {
    if q == 1 {
      C.SecondWaits(c);
    } else {
      OthersAtStart(c, q - 1);
      assert C.WaveOk(c, q);
    }
  }

  /** And a linear or tree barrier in which only the first PE has called disturbs nobody. */
  lemma RootDisturbsNobody(s: State, b: Step)
    requires CollectRun.Inv(s) && s.hit == {} && !s.bar.Dissem? && !C.Starts(s.c) && CollectRun.Enabled(s, Inside(b))
    ensures EffectOf(s.bar, b) == NoEffect
  {
    C.ReachedInv(s.c);
    forall q: nat | 1 <= q < |s.c.sources| ensures s.c.calls.entered[q] == 0 {
      OthersAtStart(s.c, q);
      assert PeFits(s, q);
    }
    match s.bar
    case Linear(l) => LinearRootQuiet(l, b.le);
    case OnTree(t) => TreeRootQuiet(t, b.te);
  }

  lemma LinearRootQuiet(l: L.State, e: L.Event)
    requires L.Reached(l) && L.Shape(l) && l.n > 1 && L.Enabled(l, e)
    requires forall q: nat :: 1 <= q < l.n ==> l.entered[q] == 0
    ensures !e.Deliver?
  {
    if e.Deliver? { var q := UpdateHasCaller(l, e.u); }
  }

  lemma UpdateHasCaller(l: L.State, u: L.Update) returns (q: nat)
    requires L.Reached(l) && L.Shape(l) && u in l.flight
    ensures 1 <= q < l.n && l.entered[q] > 0
  {
    L.LinearIsBarrier(l);
    B.AllowedGood(L.Calls(l));
    q := if u.Poke? then u.src else u.dst;
    assert L.UpdateOk(l, u) && L.PeOk(l, q);
  }

  lemma TreeRootQuiet(t: T.State, e: T.Event)
    requires T.Reached(t) && T.Shape(t) && t.tree.n > 1 && T.Enabled(t, e)
    requires forall q: nat :: 1 <= q < t.tree.n ==> t.entered[q] == 0
    ensures !e.Deliver? && (e.Run? ==> !t.pc[e.p].PokeParent?)
  {
    T.TreeIsBarrier(t);
    assert T.NodeOk(t, 1);
    match e
    case Deliver(c) => NobodyReleased(t, 1, c);
    case Run(p) => assert T.NodeOk(t, p);
    case Call(_) =>
  }

  ghost predicate Waiting(s: State) {
    CollectRun.Inv(s) && (!C.Starts(s.c) && !s.bar.Dissem? ==> s.hit == {})
  }

  lemma WaitingStep(s: State, t: State)
    requires Waiting(s) && CollectRun.Next(s, t)
    ensures Waiting(t)
  {
    CollectRun.StepKeepsInv(s, t);
    var e :| CollectRun.Enabled(s, e) && t == CollectRun.Apply(s, e);
    SameCall(s, e);
    if !C.Starts(s.c) && !s.bar.Dissem? && e.Inside? { RootDisturbsNobody(s, e.b); }
  }

  /** So then the second PE waits for ever, in every run. */
  lemma SecondNeverWakes(s: State)
    requires CollectRun.Reached(s) && Fits(s) && !C.Starts(s.c) && !s.bar.Dissem?
    ensures s.hit == {} && s.c.pc[1].Start?
  {
    forall t | CollectRun.Initial(t) ensures Waiting(t) { CollectRun.InitialInv(t); }
    forall t, u | Waiting(t) && CollectRun.Next(t, u) ensures Waiting(u) { WaitingStep(t, u); }
    ReachableInvariant(CollectRun.Initial, CollectRun.Next, Waiting, s);
    C.SecondWaits(s.c);
  }

  /** A run that is kept going until nothing more can happen. */
  lemma {:induction false} RunOut(i: State, s: State) returns (t: State)
    requires CollectRun.Initial(i) && From(i, s) && !C.Starts(i.c) && !i.bar.Dissem?
    ensures From(i, t) && Ended(t)
    decreases Work(s)
  {
    FromIsReached(i, s);
    FromSameInput(i, s);
    if Ended(s) {
      t := s;
    } else {
      var u :| CollectRun.Next(s, u);
      Further(i, s, u);
      var e :| CollectRun.Enabled(s, e) && u == CollectRun.Apply(s, e);
      FromIsReached(i, u);
      FromSameInput(i, u);
      SecondNeverWakes(s);
      SecondNeverWakes(u);
      WorkLowers(s, e);
      t := RunOut(i, u);
    }
  }

  // ------------------------------------------------------- the exact conditions

  /** In every run of the call every PE uses its prefix sum, and a run that has come to its end has everybody back. */
  ghost predicate AlwaysRight(i: State) {
    forall s {:trigger From(i, s)} :: From(i, s) ==> Fits(s) && OffsetsRight(s.c) && (Ended(s) ==> AllDone(s))
  }

  /** That is so for fcollect and for one PE, and for no other call. */
  lemma AlwaysRightExactly(i: State)
    requires CollectRun.Initial(i)
    ensures AlwaysRight(i) <==> i.c.fixed || |i.c.sources| == 1
  {
    if i.c.fixed || |i.c.sources| == 1 {
      forall s | From(i, s) ensures Fits(s) && OffsetsRight(s.c) && (Ended(s) ==> AllDone(s)) {
        FromIsReached(i, s);
        FromSameInput(i, s);
        CalmHasNoHits(s);
        UndisturbedOffsets(s);
        if Ended(s) { EndsWithAllBackExactly(s); }
      }
    } else if C.Starts(i.c) {
      var t, p := Race(i);
      assert !OffsetsRight(t.c);
    } else if i.bar.Dissem? {
      var t := FalseWake(i);
      assert !OffsetsRight(t.c);
    } else {
      Here(i);
      var t := RunOut(i, i);
      FromIsReached(i, t);
      FromSameInput(i, t);
      EndsWithAllBackExactly(t);
    }
  }

  /** In collect on two PEs or more some run gets the second PE past its wait if and only if the first contributes
      something or the barrier is the dissemination barrier. */
  lemma SecondWakesExactly(i: State)
    requires CollectRun.Initial(i) && !i.c.fixed && |i.c.sources| > 1
    ensures (exists s :: From(i, s) && |s.c.pc| > 1 && s.c.pc[1] != C.Start) <==> |i.c.sources[0]| > 0 || i.bar.Dissem?
  {
    if |i.c.sources[0]| > 0 {
      var t, p := Race(i);
      assert From(i, t);
    } else if i.bar.Dissem? {
      var t := FalseWake(i);
      assert From(i, t);
    } else {
      forall s | From(i, s) && |s.c.pc| > 1 ensures s.c.pc[1] == C.Start {
        FromIsReached(i, s);
        FromSameInput(i, s);
        SecondNeverWakes(s);
      }
    }
  }
}
