/** The tree barrier, one pSync cell per PE reused call after call: pokes go up, releases come down.
    It is proved on any tree, so on the k-ary trees the code builds. */
module BarrierTree {
  import opened Runs
  import opened Trees
  import B = BarrierSpec

  datatype Pc =
    | Out
    | WaitKids           // waits until the cell equals the number of children
    | PokeParent         // about to increment the parent's cell (a fetching, hence completed, increment)
    | WaitParent         // waits until the cell equals the number of children plus one
    | Reset              // about to clear its cell
    | Release(j: nat)    // about to increment the cell of its j-th child

  /** `flight` holds the releases under way, by destination.  History: the calls made and returned from,
      the children whose poke is counted in each cell, and whether the parent's release is counted there. */
  datatype State = State(
    tree: Tree,
    cell: seq<int>,
    pc: seq<Pc>,
    flight: multiset<nat>,
    entered: seq<nat>,
    left: seq<nat>,
    arrived: seq<set<nat>>,
    got: seq<bool>)

  datatype Event = Call(p: nat) | Run(p: nat) | Deliver(dst: nat)

  ghost predicate Shape(s: State) {
    && IsTree(s.tree)
    && |s.cell| == |s.pc| == |s.entered| == |s.left| == |s.arrived| == |s.got| == s.tree.n
  }

  ghost predicate Initial(s: State) {
    && Shape(s)
    && (forall p :: 0 <= p < s.tree.n ==> s.cell[p] == 0 && s.pc[p] == Out && s.entered[p] == s.left[p] == 0)
    && (forall p :: 0 <= p < s.tree.n ==> s.arrived[p] == {} && !s.got[p])
    && s.flight == multiset{}
  }

  ghost predicate Enabled(s: State, e: Event)
    requires Shape(s)
  {
    match e
    case Call(p) => p < s.tree.n && s.pc[p] == Out
    case Run(p) =>
      p < s.tree.n &&
      (match s.pc[p]
       case Out => false
       case WaitKids => |s.tree.kids[p]| == 0 || s.cell[p] == |s.tree.kids[p]|
       case WaitParent => s.cell[p] == |s.tree.kids[p]| + 1
       case PokeParent => p != 0
       case _ => true)
    case Deliver(c) => c in s.flight && c < s.tree.n
  }

  /** One statement of node p. */
  ghost function RunStep(s: State, p: nat): State
    requires Shape(s) && Enabled(s, Run(p))
  {
    match s.pc[p]
    case WaitKids => s.(pc := s.pc[p := if p != 0 then PokeParent else Reset])
    case PokeParent =>
      var d := s.tree.parent[p];
      s.(cell := s.cell[d := s.cell[d] + 1], arrived := s.arrived[d := s.arrived[d] + {p}], pc := s.pc[p := WaitParent])
    case WaitParent => s.(pc := s.pc[p := Reset])
    case Reset => s.(cell := s.cell[p := 0], arrived := s.arrived[p := {}], got := s.got[p := false],
      pc := s.pc[p := Release(0)])
    case Release(j) =>
      if j < |s.tree.kids[p]| then s.(flight := s.flight + multiset{s.tree.kids[p][j]}, pc := s.pc[p := Release(j + 1)])
      else s.(pc := s.pc[p := Out], left := s.left[p := s.left[p] + 1])
  }

  ghost function Apply(s: State, e: Event): (t: State)
    requires Shape(s) && Enabled(s, e)
    ensures Shape(t) && t.tree == s.tree
  {
    match e
    case Call(p) => s.(pc := s.pc[p := WaitKids], entered := s.entered[p := s.entered[p] + 1])
    case Run(p) => RunStep(s, p)
    case Deliver(c) => s.(flight := s.flight - multiset{c}, cell := s.cell[c := s.cell[c] + 1], got := s.got[c := true])
  }

  ghost predicate Next(s: State, t: State) {
    Shape(s) && exists e :: Enabled(s, e) && t == Apply(s, e)
  }

  ghost function Calls(s: State): B.Calls { B.Calls(s.entered, s.left) }

  // ------------------------------------------------------------ invariant

  /** Pokes sent up, resets done, by node i; releases sent to node c. */
  ghost function Up(s: State, i: nat): nat requires Shape(s) && i < s.tree.n {
    s.left[i] + if s.pc[i].WaitParent? || s.pc[i].Reset? || s.pc[i].Release? then 1 else 0
  }
  ghost function Resets(s: State, i: nat): nat requires Shape(s) && i < s.tree.n {
    s.left[i] + if s.pc[i].Release? then 1 else 0
  }
  ghost function Released(s: State, c: nat): nat requires Shape(s) && 1 <= c < s.tree.n {
    var p := s.tree.parent[c];
    s.left[p] + if s.pc[p].Release? && s.pc[p].j <= |s.tree.kids[p]| && c in s.tree.kids[p][..s.pc[p].j] then 1 else 0
  }

  ghost predicate NodeOk(s: State, i: int)
    requires Shape(s)
  {
    0 <= i < s.tree.n ==>
      && s.entered[i] == s.left[i] + (if s.pc[i].Out? then 0 else 1)
      && s.cell[i] == |s.arrived[i]| + (if s.got[i] then 1 else 0)
      && (forall c :: c in s.arrived[i] ==> c in s.tree.kids[i])
      && (s.pc[i].PokeParent? || s.pc[i].WaitParent? || s.pc[i].Reset? ==>
           forall c :: c in s.tree.kids[i] ==> c in s.arrived[i])
      && (s.pc[i].Reset? && i != 0 ==> s.got[i])
      && (s.pc[i].Release? ==> s.pc[i].j <= |s.tree.kids[i]|)
      && (i == 0 ==> !s.pc[i].PokeParent? && !s.pc[i].WaitParent? && !s.got[i] && s.flight[0] == 0)
  }

  /** Across the edge from c to its parent: every poke is consumed or counted in the parent's cell,
      every release is consumed, counted in c's cell, or on its way, and neither can be two ahead. */
  ghost predicate EdgeOk(s: State, c: int)
    requires Shape(s)
  {
    1 <= c < s.tree.n ==>
      var p := s.tree.parent[c];
      && Up(s, c) == Resets(s, p) + (if c in s.arrived[p] then 1 else 0)
      && Up(s, p) <= Up(s, c)
      && (if Released(s, c) == Resets(s, c) then s.flight[c] == 0 && !s.got[c]
          else
            && Released(s, c) == Resets(s, c) + 1
            && (s.pc[c].WaitParent? || s.pc[c].Reset?)
            && s.flight[c] == (if s.got[c] then 0 else 1))
  }

  ghost predicate Inv(s: State) {
    && Shape(s)
    && (forall i {:trigger NodeOk(s, i)} :: NodeOk(s, i))
    && (forall c {:trigger EdgeOk(s, c)} :: EdgeOk(s, c))
    && (forall c :: c in s.flight ==> c < s.tree.n)
  }

  lemma KeepCall(s: State, p: nat)
    requires Inv(s) && Enabled(s, Call(p))
    ensures Inv(Apply(s, Call(p)))
  {
    var t := Apply(s, Call(p));
    forall i ensures NodeOk(t, i) { assert NodeOk(s, i); }
    forall c ensures EdgeOk(t, c) { assert EdgeOk(s, c); }
  }

  lemma KeepWaitKids(s: State, p: nat)
    requires Inv(s) && Enabled(s, Run(p)) && s.pc[p].WaitKids?
    ensures Inv(Apply(s, Run(p)))
  {
    var t := Apply(s, Run(p));
    assert NodeOk(s, p) && EdgeOk(s, p);
    SubsetOfList(s.arrived[p], s.tree.kids[p]);
    forall i ensures NodeOk(t, i) { assert NodeOk(s, i); }
    forall c ensures EdgeOk(t, c) { assert EdgeOk(s, c); }
  }

  lemma KeepPokeParent(s: State, p: nat)
    requires Inv(s) && Enabled(s, Run(p)) && s.pc[p].PokeParent?
    ensures Inv(Apply(s, Run(p)))
  {
    var t := Apply(s, Run(p));
    forall i ensures NodeOk(t, i) { PokeNode(s, p, i); }
    forall c ensures EdgeOk(t, c) { PokeEdge(s, p, c); }
  }

  lemma PokeNode(s: State, p: nat, i: int)
    requires Inv(s) && Enabled(s, Run(p)) && s.pc[p].PokeParent?
    ensures NodeOk(Apply(s, Run(p)), i)
  {
    assert NodeOk(s, p) && EdgeOk(s, p) && NodeOk(s, i);
  }

  lemma PokeEdge(s: State, p: nat, c: int)
    requires Inv(s) && Enabled(s, Run(p)) && s.pc[p].PokeParent?
    ensures EdgeOk(Apply(s, Run(p)), c)
  {
    assert NodeOk(s, p) && EdgeOk(s, p) && EdgeOk(s, c) && NodeOk(s, s.tree.parent[p]);
  }

  lemma KeepWaitParent(s: State, p: nat)
    requires Inv(s) && Enabled(s, Run(p)) && s.pc[p].WaitParent?
    ensures Inv(Apply(s, Run(p)))
  {
    var t := Apply(s, Run(p));
    assert NodeOk(s, p) && EdgeOk(s, p);
    SubsetOfList(s.arrived[p], s.tree.kids[p]);
    forall i ensures NodeOk(t, i) { assert NodeOk(s, i); }
    forall c ensures EdgeOk(t, c) { assert EdgeOk(s, c); }
  }

  lemma KeepReset(s: State, p: nat)
    requires Inv(s) && Enabled(s, Run(p)) && s.pc[p].Reset?
    ensures Inv(Apply(s, Run(p)))
  {
    var t := Apply(s, Run(p));
    assert NodeOk(s, p) && EdgeOk(s, p);
    forall i ensures NodeOk(t, i) { assert NodeOk(s, i); }
    forall c ensures EdgeOk(t, c) { assert EdgeOk(s, c); }
  }

  lemma KeepReleaseKid(s: State, p: nat)
    requires Inv(s) && Enabled(s, Run(p)) && s.pc[p].Release? && s.pc[p].j < |s.tree.kids[p]|
    ensures Inv(Apply(s, Run(p)))
  {
    var t := Apply(s, Run(p));
    var kids, j := s.tree.kids[p], s.pc[p].j;
    var k := kids[j];
    assert k in kids && k !in kids[..j] && kids[..j + 1] == kids[..j] + [k];
    assert EdgeOk(s, k);
    forall i ensures NodeOk(t, i) { assert NodeOk(s, i); }
    forall c ensures EdgeOk(t, c) { assert EdgeOk(s, c); }
  }

  lemma KeepLeave(s: State, p: nat)
    requires Inv(s) && Enabled(s, Run(p)) && s.pc[p].Release? && s.pc[p].j >= |s.tree.kids[p]|
    ensures Inv(Apply(s, Run(p)))
  {
    var t := Apply(s, Run(p));
    assert NodeOk(s, p);
    assert s.tree.kids[p][..s.pc[p].j] == s.tree.kids[p];
    forall i ensures NodeOk(t, i) { assert NodeOk(s, i); }
    forall c ensures EdgeOk(t, c) { assert EdgeOk(s, c); }
  }

  lemma KeepDeliver(s: State, d: nat)
    requires Inv(s) && Enabled(s, Deliver(d))
    ensures Inv(Apply(s, Deliver(d)))
  {
    var t := Apply(s, Deliver(d));
    assert NodeOk(s, d) && EdgeOk(s, d);
    forall i ensures NodeOk(t, i) { assert NodeOk(s, i); }
    forall c ensures EdgeOk(t, c) { assert EdgeOk(s, c); }
  }

  lemma StepKeepsInv(s: State, t: State)
    requires Inv(s) && Next(s, t)
    ensures Inv(t)
  {
    var e :| Enabled(s, e) && t == Apply(s, e);
    match e
    case Call(p) => KeepCall(s, p);
    case Deliver(d) => KeepDeliver(s, d);
    case Run(p) =>
      match s.pc[p]
      case WaitKids => KeepWaitKids(s, p);
      case PokeParent => KeepPokeParent(s, p);
      case WaitParent => KeepWaitParent(s, p);
      case Reset => KeepReset(s, p);
      case Release(j) => if j < |s.tree.kids[p]| { KeepReleaseKid(s, p); } else { KeepLeave(s, p); }
  }

  ghost predicate Reached(s: State) { Reachable(Initial, Next, s) }

  lemma InitialInv(s: State)
    requires Initial(s)
    ensures Inv(s) && B.Start(Calls(s))
  {
    forall c ensures EdgeOk(s, c) {}
  }

  // ----------------------------------------------------------- refinement

  /** A poke that has reached the root's turn stands for pokes of every node below. */
  lemma {:induction false} PokesReachRoot(s: State, c: nat)
    requires Inv(s) && c < s.tree.n
    ensures Up(s, 0) <= Up(s, c)
    decreases c
  {
    if c > 0 {
      assert EdgeOk(s, c);
      PokesReachRoot(s, s.tree.parent[c]);
    }
  }

  /** No node has reset more often than the root. */
  lemma {:induction false} ReleasesComeFromRoot(s: State, c: nat)
    requires Inv(s) && c < s.tree.n
    ensures Resets(s, c) <= Resets(s, 0)
    decreases c
  {
    if c > 0 {
      assert EdgeOk(s, c) && NodeOk(s, s.tree.parent[c]);
      ReleasesComeFromRoot(s, s.tree.parent[c]);
    }
  }

  lemma LeavesLegally(s: State, p: nat)
    requires Inv(s) && Enabled(s, Run(p)) && Apply(s, Run(p)).left != s.left
    ensures B.Leaves(Calls(s), Calls(Apply(s, Run(p))), p)
  {
    RunCounters(s, p);
    assert NodeOk(s, p);
    ReleasesComeFromRoot(s, p);
    forall q | 0 <= q < s.tree.n ensures s.entered[q] >= s.entered[p] {
      PokesReachRoot(s, q);
      assert NodeOk(s, q);
    }
  }

  lemma RunCounters(s: State, p: nat)
    requires Shape(s) && Enabled(s, Run(p))
    ensures Apply(s, Run(p)).entered == s.entered
    ensures Apply(s, Run(p)).left == s.left
            || (s.pc[p].Release? && Apply(s, Run(p)).left == s.left[p := s.left[p] + 1])
  {
  }

  /** Every step of the tree barrier is a step of the specification or changes no call counter. */
  lemma StepRefines(s: State, t: State)
    requires Inv(s) && Next(s, t)
    ensures Inv(t) && (Calls(t) == Calls(s) || B.Step(Calls(s), Calls(t)))
  {
    StepKeepsInv(s, t);
    var e :| Enabled(s, e) && t == Apply(s, e);
    match e
    case Call(p) => EntersLegally(s, p);
    case Deliver(_) =>
    case Run(p) =>
      RunCounters(s, p);
      if t.left != s.left { LeavesLegally(s, p); }
  }

  lemma EntersLegally(s: State, p: nat)
    requires Inv(s) && Enabled(s, Call(p))
    ensures B.Enters(Calls(s), Calls(Apply(s, Call(p))), p)
  {
    assert NodeOk(s, p);
  }

  /** Over any number of reuses of the same cells, on any tree, the tree barrier is a barrier. */
  lemma TreeIsBarrier(s: State)
    requires Reached(s)
    ensures Inv(s) && B.Allowed(Calls(s))
  {
    var run :| IsRun(Initial, Next, run) && run[|run| - 1] == s;
    forall t | Initial(t) ensures Inv(t) && B.Start(Calls(t)) { InitialInv(t); }
    forall t, u | Inv(t) && Next(t, u) ensures Inv(u) && (Calls(u) == Calls(t) || B.Step(Calls(t), Calls(u))) {
      StepRefines(t, u);
    }
    B.RefinesBarrier(Initial, Next, Inv, Calls, run);
  }

  /** The equality waits cannot be jumped over: while a node waits, its cell counts exactly the children
      that have poked in this call plus the release of this call, and never more than the awaited value. */
  lemma WaitsNotOvershot(s: State, p: nat)
    requires Reached(s) && Shape(s) && p < s.tree.n
    ensures s.pc[p].WaitKids? ==> s.cell[p] == |s.arrived[p]| <= |s.tree.kids[p]|
    ensures s.pc[p].WaitParent? ==> s.cell[p] == |s.tree.kids[p]| + (if s.got[p] then 1 else 0)
    ensures forall c :: c in s.arrived[p] ==> c in s.tree.kids[p]
  {
    TreeIsBarrier(s);
    assert NodeOk(s, p) && EdgeOk(s, p);
    SubsetOfList(s.arrived[p], s.tree.kids[p]);
  }

  /** The reset wipes out only this call's pokes and release: each counted child poke belongs to the call p is in. */
  lemma ResetLosesNothing(s: State, p: nat)
    requires Reached(s) && Shape(s) && p < s.tree.n && s.pc[p].Reset?
    ensures forall c :: c in s.arrived[p] ==> c < s.tree.n && Up(s, c) == s.entered[p]
    ensures p != 0 ==> Released(s, p) == s.entered[p]
  {
    TreeIsBarrier(s);
    assert NodeOk(s, p) && EdgeOk(s, p);
    forall c | c in s.arrived[p] ensures c < s.tree.n && Up(s, c) == s.entered[p] { assert EdgeOk(s, c); }
  }

  // ------------------------------------------------------ deadlock freedom

  /** A step that is not a new call. */
  ghost predicate NextInside(s: State, t: State) {
    Shape(s) && exists e :: Enabled(s, e) && !e.Call? && t == Apply(s, e)
  }

  ghost predicate Stuck(s: State) requires Shape(s) {
    s.flight == multiset{} && forall q: nat :: q < s.tree.n ==> !Enabled(s, Run(q))
  }

  /** In a stuck state, if everybody has made the k-th call then everybody has poked for it,
      from the leaves up. */
  lemma {:induction false} StuckAllPoked(s: State, k: nat, c: nat)
    requires Inv(s) && Stuck(s) && c <= s.tree.n
    requires forall q :: 0 <= q < s.tree.n ==> s.entered[q] >= k
    ensures forall i :: c <= i < s.tree.n ==> Up(s, i) >= k
    decreases s.tree.n - c
  {
    if c < s.tree.n {
      StuckAllPoked(s, k, c + 1);
      assert NodeOk(s, c) && !Enabled(s, Run(c));
      forall d | d in s.tree.kids[c] && s.left[c] == k - 1 && s.pc[c].WaitKids? ensures d in s.arrived[c] {
        assert EdgeOk(s, d);
      }
      SubsetOfList(s.arrived[c], s.tree.kids[c]);
      assert EdgeOk(s, c);
    }
  }

  /** And then everybody has left it, from the root down. */
  lemma {:induction false} StuckAllLeft(s: State, k: nat, c: nat)
    requires Inv(s) && Stuck(s) && c < s.tree.n
    requires forall i :: 0 <= i < s.tree.n ==> Up(s, i) >= k
    ensures s.left[c] >= k
    decreases c
  {
    assert NodeOk(s, c) && !Enabled(s, Run(c));
    if c > 0 {
      var p := s.tree.parent[c];
      StuckAllLeft(s, k, p);
      assert EdgeOk(s, c) && NodeOk(s, p) && !Enabled(s, Run(p));
      SubsetOfList(s.arrived[c], s.tree.kids[c]);
    }
  }

  /** If a PE is inside its k-th call and everybody has made the k-th call, somebody can move. */
  lemma NoDeadlock(s: State, p: nat)
    requires Reached(s) && Shape(s) && p < s.tree.n && s.pc[p] != Out
    requires forall q :: 0 <= q < s.tree.n ==> s.entered[q] >= s.entered[p]
    ensures exists t :: NextInside(s, t)
  {
    TreeIsBarrier(s);
    assert NodeOk(s, p);
    if Stuck(s) {
      StuckAllPoked(s, s.entered[p], 0);
      StuckAllLeft(s, s.entered[p], p);
    } else if c :| c in s.flight {
      assert NextInside(s, Apply(s, Deliver(c)));
    } else {
      var q: nat :| q < s.tree.n && Enabled(s, Run(q));
      assert NextInside(s, Apply(s, Run(q)));
    }
  }

  function Rank(kids: nat, pc: Pc): nat {
    match pc
    case Out => 0
    case WaitKids => 2 * kids + 5
    case PokeParent => 2 * kids + 4
    case WaitParent => 2 * kids + 3
    case Reset => 2 * kids + 2
    case Release(j) => if j <= kids then 2 * (kids - j) + 1 else 0
  }

  ghost function Ranks(s: State): seq<nat>
    requires Shape(s)
  {
    seq(s.tree.n, p requires 0 <= p < s.tree.n && Shape(s) => Rank(|s.tree.kids[p]|, s.pc[p]))
  }

  /** What is left to do for the calls already made. */
  ghost function Remaining(s: State): nat {
    if Shape(s) then Sum(Ranks(s)) + |s.flight| else 0
  }

  lemma RunLowersRank(s: State, p: nat)
    requires Inv(s) && Enabled(s, Run(p))
    ensures var t := Apply(s, Run(p));
            && (forall q :: 0 <= q < s.tree.n && q != p ==> t.pc[q] == s.pc[q])
            && Rank(|s.tree.kids[p]|, t.pc[p]) + |t.flight| < Rank(|s.tree.kids[p]|, s.pc[p]) + |s.flight|
  {
    assert NodeOk(s, p);
  }

  lemma InsideLowers(s: State, t: State)
    requires Inv(s) && NextInside(s, t)
    ensures Next(s, t) && Remaining(t) < Remaining(s)
  {
    var e :| Enabled(s, e) && !e.Call? && t == Apply(s, e);
    if e.Deliver? { DeliverLowers(s, e.dst); } else { RunLowers(s, e.p); }
  }

  lemma DeliverLowers(s: State, d: nat)
    requires Inv(s) && Enabled(s, Deliver(d))
    ensures Remaining(Apply(s, Deliver(d))) < Remaining(s)
  {
    assert Ranks(Apply(s, Deliver(d))) == Ranks(s);
  }

  lemma RunLowers(s: State, p: nat)
    requires Inv(s) && Enabled(s, Run(p))
    ensures Remaining(Apply(s, Run(p))) < Remaining(s)
  {
    RunLowersRank(s, p);
    var t := Apply(s, Run(p));
    assert Ranks(t) == Ranks(s)[p := Rank(|s.tree.kids[p]|, t.pc[p])];
    SumUpdate(Ranks(s), p, Rank(|s.tree.kids[p]|, t.pc[p]));
  }

  /** Whatever the schedule, the calls already made take boundedly many steps, and when no step is left
      each PE that is still inside waits for a PE that has not made that call yet. */
  lemma CallsComplete(path: seq<State>)
    requires IsPath(NextInside, path) && Reached(path[0])
    ensures |path| - 1 <= Remaining(path[0])
    ensures var s := path[|path| - 1];
            Shape(s) && ((forall t :: !NextInside(s, t)) ==>
              forall p :: 0 <= p < s.tree.n && s.pc[p] != Out ==>
                exists q :: 0 <= q < s.tree.n && s.entered[q] < s.entered[p])
  {
    forall s, t {:trigger NextInside(s, t)} | Reached(s) && NextInside(s, t)
      ensures Reached(t) && Remaining(t) < Remaining(s)
    {
      TreeIsBarrier(s);
      InsideLowers(s, t);
      ReachableStep(Initial, Next, s, t);
    }
    MeasureBoundsPath(NextInside, Reached, Remaining, path);
    var s := path[|path| - 1];
    TreeIsBarrier(s);
    if forall t :: !NextInside(s, t) {
      forall p | 0 <= p < s.tree.n && s.pc[p] != Out
        ensures exists q :: 0 <= q < s.tree.n && s.entered[q] < s.entered[p]
      {
        if forall q :: 0 <= q < s.tree.n ==> s.entered[q] >= s.entered[p] { NoDeadlock(s, p); }
      }
    }
  }

  /** The tree the code builds has degree 2; a barrier over any number of PEs can start on it. */
  lemma StartsOnBinaryTree(size: nat) returns (s: State)
    requires size > 0
    ensures s.tree == Kary(size, 2) && Reached(s)
  {
    KaryIsTree(size, 2);
    s := State(Kary(size, 2), seq(size, i => 0), seq(size, i => Out), multiset{}, seq(size, i => 0), seq(size, i => 0),
               seq(size, i => {}), seq(size, i => false));
    ReachableInit(Initial, Next, s);
  }
}
