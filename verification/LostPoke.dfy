/** A barrier that has lost a poke before the PE it was for has made its call.  The linear and the tree barrier then
    let nobody out; the dissemination barrier never lets that PE out. */
module LostPoke {
  import L = BarrierLinear
  import T = BarrierTree
  import D = BarrierDissem
  import B = BarrierSpec
  import opened Trees
  import opened Bits

  // --------------------------------------------------------------- linear

  /** PE x has poked at most once, and has not been acked. */
  ghost predicate NotAcked(l: L.State, x: int)
    requires L.Shape(l)
  {
    1 <= x < l.n ==>
      && (l.pc[x].Out? || l.pc[x].Begin? || l.pc[x].AckWait?) && l.cell[x] == 0 && l.left[x] == 0
      && l.flight[L.Poke(x)] + (if x in l.arrived then 1 else 0) <= if l.pc[x].AckWait? then 1 else 0
  }

  /** The root still waits, and the poke of q is nowhere. */
  ghost predicate LinearStuck(l: L.State, q: nat) {
    && L.Shape(l) && 1 <= q < l.n
    && q !in l.arrived && l.flight[L.Poke(q)] == 0 && l.pc[q].AckWait?
    && (l.pc[0].Out? || l.pc[0].Begin? || l.pc[0].RootWait?) && l.left[0] == 0
    && l.cell[0] == |l.arrived| && (forall x :: x in l.arrived ==> 1 <= x < l.n)
    && (forall x {:trigger NotAcked(l, x)} :: NotAcked(l, x))
    && (forall u :: u in l.flight ==> u.Poke? && 1 <= u.src < l.n)
  }

  lemma LinearLoses(l: L.State, q: nat)
    requires L.Reached(l) && L.Shape(l) && L.Poke(q) in l.flight && l.entered[0] == 0
    ensures LinearStuck(l.(flight := l.flight - multiset{L.Poke(q)}), q)
  {
    L.LinearIsBarrier(l);
    B.AllowedGood(L.Calls(l));
    var t := l.(flight := l.flight - multiset{L.Poke(q)});
    assert L.UpdateOk(l, L.Poke(q)) && L.PeOk(l, q) && L.PeOk(l, 0);
    forall x ensures NotAcked(t, x) { assert L.PeOk(l, x); }
    forall u | u in t.flight ensures u.Poke? && 1 <= u.src < l.n { assert L.UpdateOk(l, u); }
  }

  lemma LinearStaysStuck(l: L.State, q: nat, e: L.Event)
    requires LinearStuck(l, q) && L.Enabled(l, e)
    ensures LinearStuck(L.Apply(l, e), q)
    ensures e.Deliver? ==> LinearStuck(l.(flight := l.flight - multiset{e.u}), q)
  {
    L.Subset(l.arrived, l.n);
    var t := L.Apply(l, e);
    if e.Deliver? {
      assert NotAcked(l, e.u.src);
      var lost := l.(flight := l.flight - multiset{e.u});
      forall x ensures NotAcked(lost, x) { assert NotAcked(l, x); }
    } else {
      assert NotAcked(l, e.p);
    }
    forall x ensures NotAcked(t, x) { assert NotAcked(l, x); }
  }

  // ----------------------------------------------------------------- tree

  /** Node i is a proper ancestor of node c. */
  ghost predicate Above(t: Tree, i: int, c: nat)
    requires IsTree(t) && c < t.n
    decreases c
  {
    c > 0 && (t.parent[c] == i || Above(t, i, t.parent[c]))
  }

  lemma {:induction false} PathKid(t: Tree, i: int, c: nat) returns (k: nat)
    requires IsTree(t) && c < t.n && Above(t, i, c)
    ensures 1 <= k < t.n && 0 <= i < t.n && t.parent[k] == i && k in t.kids[i] && (k == c || Above(t, k, c))
    decreases c
  {
    if t.parent[c] == i {
      k := c;
    } else {
      k := PathKid(t, i, t.parent[c]);
    }
  }

  lemma {:induction false} RootAbove(t: Tree, c: nat)
    requires IsTree(t) && 0 < c < t.n
    ensures Above(t, 0, c)
    decreases c
  {
    if t.parent[c] != 0 { RootAbove(t, t.parent[c]); }
  }

  /** Node i counts only children that have poked, has not been released, and if it is above c does not get
      past its wait for the children. */
  ghost predicate NotReleased(t: T.State, c: nat, i: int)
    requires T.Shape(t) && c < t.tree.n
  {
    0 <= i < t.tree.n ==>
      && (t.pc[i].Out? || t.pc[i].WaitKids? || t.pc[i].PokeParent? || t.pc[i].WaitParent?) && t.left[i] == 0
      && t.cell[i] == |t.arrived[i]|
      && (forall k :: k in t.arrived[i] ==> k in t.tree.kids[i] && k < t.tree.n && t.pc[k].WaitParent?)
      && (i == 0 ==> !t.pc[i].PokeParent? && !t.pc[i].WaitParent?)
      && (Above(t.tree, i, c) ==> t.pc[i].Out? || t.pc[i].WaitKids?)
  }

  /** The poke of c to its parent is nowhere. */
  ghost predicate TreeStuck(t: T.State, c: nat) {
    && T.Shape(t) && 1 <= c < t.tree.n
    && t.pc[c].WaitParent? && c !in t.arrived[t.tree.parent[c]] && t.flight == multiset{}
    && forall i {:trigger NotReleased(t, c, i)} :: NotReleased(t, c, i)
  }

  /** Above a node that has not made its call nobody has poked, and so nobody has left anywhere. */
  lemma {:induction false} AboveNotPoked(t: T.State, i: nat, p: nat)
    requires T.Inv(t) && p < t.tree.n && i < t.tree.n && T.Up(t, p) == 0 && (i == p || Above(t.tree, i, p))
    ensures T.Up(t, i) == 0
    decreases p
  {
    if i != p {
      assert T.EdgeOk(t, p);
      AboveNotPoked(t, i, t.tree.parent[p]);
    }
  }

  lemma NobodyReleased(t: T.State, p: nat, i: nat)
    requires T.Inv(t) && p < t.tree.n && i < t.tree.n && T.Up(t, p) == 0
    ensures T.Resets(t, i) == 0 && t.left[i] == 0 && t.flight[i] == 0 && !t.got[i]
  {
    T.PokesReachRoot(t, p);
    T.ReleasesComeFromRoot(t, i);
    assert T.NodeOk(t, i);
    if i > 0 {
      assert T.EdgeOk(t, i);
      T.ReleasesComeFromRoot(t, t.tree.parent[i]);
    }
  }

  lemma TreeLoses(t: T.State, c: nat)
    requires T.Reached(t) && T.Shape(t) && 1 <= c < t.tree.n && t.pc[c].PokeParent? && t.entered[t.tree.parent[c]] == 0
    ensures TreeStuck(t.(pc := t.pc[c := T.WaitParent]), c)
  {
    T.TreeIsBarrier(t);
    var p := t.tree.parent[c];
    var u := t.(pc := t.pc[c := T.WaitParent]);
    assert T.NodeOk(t, p) && T.NodeOk(t, c) && T.EdgeOk(t, c);
    forall i ensures NotReleased(u, c, i) {
      if 0 <= i < t.tree.n { TreeLosesAt(t, c, i); }
    }
    forall m ensures t.flight[m] == 0 {
      if m in t.flight { NobodyReleased(t, p, m); }
    }
    assert u.flight == multiset{};
  }

  lemma TreeLosesAt(t: T.State, c: nat, i: nat)
    requires T.Inv(t) && 1 <= c < t.tree.n && t.pc[c].PokeParent? && t.entered[t.tree.parent[c]] == 0 && i < t.tree.n
    ensures NotReleased(t.(pc := t.pc[c := T.WaitParent]), c, i)
  {
    var p := t.tree.parent[c];
    assert T.NodeOk(t, p) && T.NodeOk(t, c) && T.NodeOk(t, i) && T.EdgeOk(t, c);
    NobodyReleased(t, p, i);
    forall k | k in t.arrived[i] ensures k in t.tree.kids[i] && k < t.tree.n && (t.pc[k].WaitParent? || k == c) {
      assert T.EdgeOk(t, k) && T.NodeOk(t, k);
      NobodyReleased(t, p, k);
    }
    T.PokesReachRoot(t, p);
    if Above(t.tree, i, c) {
      var k := PathKid(t.tree, i, c);
      if i != p { AboveParent(t.tree, i, c); }
      AboveNotPoked(t, i, p);
      if k != c { AboveOrParent(t.tree, k, c); AboveNotPoked(t, k, p); }
      assert T.EdgeOk(t, k) && T.NodeOk(t, k);
    }
  }

  lemma AboveParent(t: Tree, i: int, c: nat)
    requires IsTree(t) && 0 < c < t.n && Above(t, i, c) && i != t.parent[c]
    ensures Above(t, i, t.parent[c])
  {
  }

  lemma AboveOrParent(t: Tree, k: nat, c: nat)
    requires IsTree(t) && 0 < c < t.n && Above(t, k, c)
    ensures k == t.parent[c] || Above(t, k, t.parent[c])
  {
  }

  lemma TreeStaysStuck(t: T.State, c: nat, e: T.Event)
    requires TreeStuck(t, c) && T.Enabled(t, e)
    ensures TreeStuck(T.Apply(t, e), c)
  {
    var u := T.Apply(t, e);
    if e.Run? { assert NotReleased(t, c, e.p); PassesWithAll(t, c, e.p); }
    forall i ensures NotReleased(u, c, i) {
      assert NotReleased(t, c, i);
    }
  }

  lemma TreeStaysStuckLosing(t: T.State, c: nat, p: nat)
    requires TreeStuck(t, c) && p < t.tree.n && t.pc[p].PokeParent?
    ensures TreeStuck(t.(pc := t.pc[p := T.WaitParent]), c)
  {
    var u := t.(pc := t.pc[p := T.WaitParent]);
    assert NotReleased(t, c, p);
    forall i ensures NotReleased(u, c, i) { assert NotReleased(t, c, i); }
  }

  /** A node above c cannot pass: on the way down to c there is a child that has not poked. */
  lemma PassesWithAll(t: T.State, c: nat, i: nat)
    requires TreeStuck(t, c) && i < t.tree.n && T.Enabled(t, T.Run(i))
    ensures t.pc[i].WaitKids? || t.pc[i].PokeParent?
    ensures t.pc[i].WaitKids? ==> i != 0 && !Above(t.tree, i, c)
  {
    assert NotReleased(t, c, i);
    SubsetOfList(t.arrived[i], t.tree.kids[i]);
    if i == 0 { RootAbove(t.tree, c); }
    if Above(t.tree, i, c) {
      var k := KidNotArrived(t, c, i);
    }
  }

  lemma KidNotArrived(t: T.State, c: nat, i: nat) returns (k: nat)
    requires TreeStuck(t, c) && i < t.tree.n && Above(t.tree, i, c)
    ensures k in t.tree.kids[i] && k !in t.arrived[i]
  {
    k := PathKid(t.tree, i, c);
    assert NotReleased(t, c, i) && NotReleased(t, c, k);
  }

  // -------------------------------------------------------- dissemination

  /** In a first and only call, round 0: PE i has from its one source a poke in its cell, on its way, lost, or
      consumed, if that source has poked, and nothing otherwise. */
  ghost predicate OneCall(d: D.State, lost: set<nat>, i: int)
    requires D.Shape(d)
  {
    0 <= i < d.n ==>
      && d.entered[i] <= 1 && d.entered[i] == d.left[i] + (if d.pc[i].Out? then 0 else 1)
      && (d.n > 1 ==>
            && d.rounds > 0 && 0 <= Behind(d.n, i, 1) < d.n && d.cell[i][0] >= 0
            && (d.pc[i] == D.Reset(0) ==> d.cell[i][0] > 0)
            && d.cell[i][0] + d.flight[D.Increment(i, 0)] + (if i in lost then 1 else 0) + D.Through(d, i, 1)
               == D.Sent(d, Behind(d.n, i, 1), 0))
  }

  ghost predicate OneCallEach(d: D.State, lost: set<nat>) {
    D.Shape(d) && forall i {:trigger OneCall(d, lost, i)} :: OneCall(d, lost, i)
  }

  lemma OneCallStarts(d: D.State)
    requires D.Initial(d)
    ensures OneCallEach(d, {})
  {
    assert Exp2(0) == 1;
    forall i ensures OneCall(d, {}, i) {}
  }

  lemma OneCallStays(d: D.State, lost: set<nat>, e: D.Event)
    requires OneCallEach(d, lost) && D.Enabled(d, e) && (e.Call? ==> d.entered[e.p] == 0)
    ensures OneCallEach(D.Apply(d, e), lost)
  {
    forall i ensures OneCall(D.Apply(d, e), lost, i) { OneCallStep(d, lost, e, i); }
  }

  lemma OneCallStep(d: D.State, lost: set<nat>, e: D.Event, i: int)
    requires OneCallEach(d, lost) && D.Enabled(d, e) && (e.Call? ==> d.entered[e.p] == 0)
    ensures OneCall(D.Apply(d, e), lost, i)
  {
    assert OneCall(d, lost, i) && Exp2(0) == 1;
    if 0 <= i < d.n && d.n > 1 {
      AheadIsModulo(d.n, i, 1);
      if e.Run? { OneCallRun(d, lost, e.p, i); }
    }
  }

  lemma OneCallRun(d: D.State, lost: set<nat>, p: nat, i: nat)
    requires OneCallEach(d, lost) && D.Enabled(d, D.Run(p)) && i < d.n && d.n > 1
    ensures OneCall(D.Apply(d, D.Run(p)), lost, i)
  {
    var q := Behind(d.n, i, 1);
    assert OneCall(d, lost, i) && Exp2(0) == 1;
    AheadIsModulo(d.n, i, 1);
    AheadIsModulo(d.n, p, 1);
    RunRoundZero(d, p);
    var t := D.Apply(d, D.Run(p));
    if i != p { SameRoundZero(d, t, i); }
    if q != p { SameRoundZero(d, t, q); }
  }

  /** What a step of p does to its part of round 0. */
  lemma RunRoundZero(d: D.State, p: nat)
    requires D.Shape(d) && D.Enabled(d, D.Run(p)) && d.n > 1
    ensures var t := D.Apply(d, D.Run(p));
            && d.rounds > 0 && Ahead(d.n, p, 1) >= 0
            && D.Through(t, p, 1) == D.Through(d, p, 1) + (if d.pc[p] == D.Reset(0) then 1 else 0)
            && D.Sent(t, p, 0) == D.Sent(d, p, 0) + (if d.pc[p] == D.Poke(0) then 1 else 0)
            && t.cell[p][0] == d.cell[p][0] - (if d.pc[p] == D.Reset(0) then 1 else 0)
            && (forall m: D.Increment :: m.r == 0 ==>
                 t.flight[m] == d.flight[m] + if d.pc[p] == D.Poke(0) && m.dst == Ahead(d.n, p, 1) then 1 else 0)
            && t.entered == d.entered && t.left[p] - d.left[p] == (if t.pc[p].Out? then 1 else 0)
            && (t.pc[p] == D.Reset(0) ==> d.pc[p] == D.Wait(0) && d.cell[p][0] != 0) && !d.pc[p].Out?
            && forall q :: 0 <= q < d.n && q != p ==>
                 t.pc[q] == d.pc[q] && t.left[q] == d.left[q] && t.cell[q] == d.cell[q]
  {
    assert Exp2(0) == 1;
    AheadIsModulo(d.n, p, 1);
  }

  lemma SameRoundZero(d: D.State, t: D.State, q: nat)
    requires D.Shape(d) && D.Shape(t) && t.n == d.n && q < d.n && t.pc[q] == d.pc[q] && t.left[q] == d.left[q]
    ensures D.Through(t, q, 1) == D.Through(d, q, 1) && D.Sent(t, q, 0) == D.Sent(d, q, 0)
  {
  }

  lemma OneCallLoses(d: D.State, lost: set<nat>, m: D.Increment)
    requires OneCallEach(d, lost) && D.Enabled(d, D.Deliver(m)) && m.r == 0
    ensures OneCallEach(d.(flight := d.flight - multiset{m}), lost + {m.dst})
  {
    var t := d.(flight := d.flight - multiset{m});
    forall i ensures OneCall(t, lost + {m.dst}, i) {
      assert OneCall(d, lost, i) && Exp2(0) == 1;
      if 0 <= i < d.n && d.n > 1 { assert OneCall(d, lost, Behind(d.n, i, 1)); }
    }
  }

  /** A PE whose poke was lost waits in round 0 for ever. */
  lemma LostStaysInside(d: D.State, lost: set<nat>, p: nat)
    requires OneCallEach(d, lost) && p in lost && p < d.n && d.n > 1
    ensures d.left[p] == 0
  {
    assert OneCall(d, lost, p) && OneCall(d, lost, Behind(d.n, p, 1));
  }
}
