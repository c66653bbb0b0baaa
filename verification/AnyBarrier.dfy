/** The three barrier helpers behind one interface, and what becomes of each when a poke is lost: when it lands
    on a pSync cell whose owner still uses that cell for something else and clears it afterwards. */
module AnyBarrier {
  import B = BarrierSpec
  import L = BarrierLinear
  import T = BarrierTree
  import D = BarrierDissem
  import opened Trees
  import opened Runs

  datatype Bar = Linear(l: L.State) | OnTree(t: T.State) | Dissem(d: D.State)

  datatype Step = LinearStep(le: L.Event) | TreeStep(te: T.Event) | DissemStep(de: D.Event)

  function Size(b: Bar): nat {
    match b
    case Linear(l) => l.n
    case OnTree(t) => t.tree.n
    case Dissem(d) => d.n
  }

  ghost predicate Shape(b: Bar) {
    match b
    case Linear(l) => L.Shape(l)
    case OnTree(t) => T.Shape(t)
    case Dissem(d) => D.Shape(d)
  }

  ghost predicate Initial(b: Bar) {
    match b
    case Linear(l) => L.Initial(l)
    case OnTree(t) => T.Initial(t)
    case Dissem(d) => D.Initial(d)
  }

  ghost predicate Reached(b: Bar) {
    match b
    case Linear(l) => L.Reached(l)
    case OnTree(t) => T.Reached(t)
    case Dissem(d) => D.Reached(d)
  }

  function Calls(b: Bar): B.Calls {
    match b
    case Linear(l) => B.Calls(l.entered, l.left)
    case OnTree(t) => B.Calls(t.entered, t.left)
    case Dissem(d) => B.Calls(d.entered, d.left)
  }

  /** PE p is not inside a call. */
  predicate IsOut(b: Bar, p: nat)
    requires Shape(b) && p < Size(b)
  {
    match b
    case Linear(l) => l.pc[p] == L.Out
    case OnTree(t) => t.pc[p] == T.Out
    case Dissem(d) => d.pc[p] == D.Out
  }

  function CallOf(b: Bar, p: nat): Step {
    match b
    case Linear(_) => LinearStep(L.Call(p))
    case OnTree(_) => TreeStep(T.Call(p))
    case Dissem(_) => DissemStep(D.Call(p))
  }

  predicate IsCall(e: Step) {
    match e
    case LinearStep(le) => le.Call?
    case TreeStep(te) => te.Call?
    case DissemStep(de) => de.Call?
  }

  ghost predicate Enabled(b: Bar, e: Step)
    requires Shape(b)
  {
    match b
    case Linear(l) => e.LinearStep? && L.Enabled(l, e.le)
    case OnTree(t) => e.TreeStep? && T.Enabled(t, e.te)
    case Dissem(d) => e.DissemStep? && D.Enabled(d, e.de)
  }

  ghost function Apply(b: Bar, e: Step): (r: Bar)
    requires Shape(b) && Enabled(b, e)
    ensures Shape(r) && Size(r) == Size(b)
  {
    match b
    case Linear(l) => Linear(L.Apply(l, e.le))
    case OnTree(t) => OnTree(T.Apply(t, e.te))
    case Dissem(d) => Dissem(D.Apply(d, e.de))
  }

  // -------------------------------------------------- writing to another PE's cell

  /** What a step does to the first pSync cell of another PE. */
  datatype Effect = NoEffect | Adds(p: nat) | Puts(p: nat, value: int)

  ghost function EffectOf(b: Bar, e: Step): Effect
    requires Shape(b) && Enabled(b, e)
  {
    match b
    case Linear(_) =>
      if !e.le.Deliver? then NoEffect else if e.le.u.Poke? then Adds(0) else Puts(e.le.u.dst, e.le.u.value)
    case OnTree(t) =>
      if e.te.Deliver? then Adds(e.te.dst)
      else if e.te.Run? && t.pc[e.te.p].PokeParent? then Adds(t.tree.parent[e.te.p])
      else NoEffect
    case Dissem(_) => if e.de.Deliver? && e.de.m.r == 0 then Adds(e.de.m.dst) else NoEffect
  }

  /** The first pSync cell of PE p. */
  ghost function Cell(b: Bar, p: nat): int
    requires Shape(b) && p < Size(b)
  {
    match b
    case Linear(l) => l.cell[p]
    case OnTree(t) => t.cell[p]
    case Dissem(d) => if d.rounds > 0 then d.cell[p][0] else 0
  }

  /** The same step when its effect on that cell is not to the barrier. */
  ghost function Lose(b: Bar, e: Step): (r: Bar)
    requires Shape(b) && Enabled(b, e) && EffectOf(b, e) != NoEffect
    ensures Shape(r) && Size(r) == Size(b) && Calls(r) == Calls(b)
  {
    match b
    case Linear(l) => Linear(l.(flight := l.flight - multiset{e.le.u}))
    case OnTree(t) =>
      if e.te.Deliver? then OnTree(t.(flight := t.flight - multiset{e.te.dst}))
      else OnTree(t.(pc := t.pc[e.te.p := T.WaitParent]))
    case Dissem(d) => Dissem(d.(flight := d.flight - multiset{e.de.m}))
  }

  /** A cell after such an effect. */
  function After(cell: int, f: Effect, p: nat): int {
    match f
    case NoEffect => cell
    case Adds(q) => if q == p then cell + 1 else cell
    case Puts(q, v) => if q == p then v else cell
  }

  /** EffectOf says all that a step does to the first cells of PEs that are not inside a call. */
  lemma EffectIsAll(b: Bar, e: Step, p: nat)
    requires Shape(b) && Enabled(b, e) && p < Size(b) && IsOut(b, p)
    ensures Cell(Apply(b, e), p) == After(Cell(b, p), EffectOf(b, e), p)
  {
    match b
    case Linear(l) => LinearEffect(l, e.le, p);
    case OnTree(t) => TreeEffect(t, e.te, p);
    case Dissem(d) => DissemEffect(d, e.de, p);
  }

  lemma LinearEffect(l: L.State, e: L.Event, p: nat)
    requires L.Shape(l) && L.Enabled(l, e) && p < l.n && l.pc[p] == L.Out
    ensures L.Apply(l, e).cell[p] == After(l.cell[p], EffectOf(Linear(l), LinearStep(e)), p)
  {
  }

  lemma TreeEffect(t: T.State, e: T.Event, p: nat)
    requires T.Shape(t) && T.Enabled(t, e) && p < t.tree.n && t.pc[p] == T.Out
    ensures T.Apply(t, e).cell[p] == After(t.cell[p], EffectOf(OnTree(t), TreeStep(e)), p)
  {
  }

  lemma DissemEffect(d: D.State, e: D.Event, p: nat)
    requires D.Shape(d) && D.Enabled(d, e) && p < d.n && d.pc[p] == D.Out
    ensures d.rounds > 0 ==> D.Apply(d, e).cell[p][0] == After(d.cell[p][0], EffectOf(Dissem(d), DissemStep(e)), p)
    ensures D.Apply(d, e).rounds == d.rounds && (d.rounds == 0 ==> EffectOf(Dissem(d), DissemStep(e)) == NoEffect)
  {
  }

  /** And a lost step does nothing to any. */
  lemma LoseKeepsCells(b: Bar, e: Step, p: nat)
    requires Shape(b) && Enabled(b, e) && p < Size(b) && EffectOf(b, e) != NoEffect
    ensures Cell(Lose(b, e), p) == Cell(b, p)
  {
  }

  // ------------------------------------------------------- what is known of all three

  lemma StepReached(b: Bar, e: Step)
    requires Reached(b) && Shape(b) && Enabled(b, e)
    ensures Reached(Apply(b, e))
  {
    match b
    case Linear(l) => assert L.Next(l, L.Apply(l, e.le)); ReachableStep(L.Initial, L.Next, l, L.Apply(l, e.le));
    case OnTree(t) => assert T.Next(t, T.Apply(t, e.te)); ReachableStep(T.Initial, T.Next, t, T.Apply(t, e.te));
    case Dissem(d) => assert D.Next(d, D.Apply(d, e.de)); ReachableStep(D.Initial, D.Next, d, D.Apply(d, e.de));
  }

  lemma InitialReached(b: Bar)
    requires Initial(b)
    ensures Reached(b) && Shape(b)
  {
    match b
    case Linear(l) => ReachableInit(L.Initial, L.Next, l);
    case OnTree(t) => ReachableInit(T.Initial, T.Next, t);
    case Dissem(d) => ReachableInit(D.Initial, D.Next, d);
  }

  /** A call raises the caller's counter and nothing else. */
  lemma CallEnters(b: Bar, p: nat)
    requires Shape(b) && p < Size(b) && Enabled(b, CallOf(b, p))
    ensures var c := Calls(b); Calls(Apply(b, CallOf(b, p))) == c.(entered := c.entered[p := c.entered[p] + 1])
  {
  }

  /** Inside a barrier nothing is lost in, a step changes no counter or lets somebody leave who may. */
  lemma StepCalls(b: Bar, e: Step) returns (p: nat)
    requires Reached(b) && Shape(b) && Enabled(b, e) && !IsCall(e)
    ensures Calls(Apply(b, e)) == Calls(b) || B.Leaves(Calls(b), Calls(Apply(b, e)), p)
  {
    p := 0;
    match b
    case Linear(l) =>
      L.LinearIsBarrier(l);
      if e.le.Run? {
        p := e.le.p;
        L.RunTouchesLeft(l, p);
        if L.Apply(l, e.le).left != l.left { L.LeavesLegally(l, p); }
      }
    case OnTree(t) =>
      T.TreeIsBarrier(t);
      if e.te.Run? { p := e.te.p; T.RunCounters(t, p); if T.Apply(t, e.te).left != t.left { T.LeavesLegally(t, p); } }
    case Dissem(d) =>
      D.DissemIsBarrier(d);
      if e.de.Run? { p := e.de.p; D.RunCounters(d, p); if D.Apply(d, e.de).left != d.left { D.LeavesLegally(d, p); } }
  }

  /** A PE is inside exactly when it has made a call it has not left. */
  lemma OutMeansLeft(b: Bar, p: nat)
    requires Reached(b) && Shape(b) && p < Size(b)
    ensures Calls(b).entered[p] == Calls(b).left[p] + if IsOut(b, p) then 0 else 1
  {
    match b
    case Linear(l) => L.LinearIsBarrier(l); assert L.PeOk(l, p);
    case OnTree(t) => T.TreeIsBarrier(t); assert T.NodeOk(t, p);
    case Dissem(d) => D.DissemIsBarrier(d); assert D.PeOk(d, p);
  }

  /** Once everybody has made the call p is in, some step is possible. */
  lemma SomebodyMoves(b: Bar, p: nat) returns (e: Step)
    requires Reached(b) && Shape(b) && p < Size(b) && !IsOut(b, p)
    requires forall q :: 0 <= q < Size(b) ==> Calls(b).entered[q] >= Calls(b).entered[p]
    ensures Enabled(b, e) && !IsCall(e)
  {
    match b
    case Linear(l) =>
      assert forall q :: 0 <= q < l.n ==> l.entered[q] == Calls(b).entered[q];
      L.NoDeadlock(l, p);
      var t :| L.NextInside(l, t);
      var le :| L.Enabled(l, le) && !le.Call? && t == L.Apply(l, le);
      e := LinearStep(le);
    case OnTree(s) =>
      assert forall q :: 0 <= q < s.tree.n ==> s.entered[q] == Calls(b).entered[q];
      T.NoDeadlock(s, p);
      var t :| T.NextInside(s, t);
      var te :| T.Enabled(s, te) && !te.Call? && t == T.Apply(s, te);
      e := TreeStep(te);
    case Dissem(d) =>
      assert forall q :: 0 <= q < d.n ==> d.entered[q] == Calls(b).entered[q];
      D.NoDeadlock(d, p);
      var t :| D.NextInside(d, t);
      var de :| D.Enabled(d, de) && !de.Call? && t == D.Apply(d, de);
      e := DissemStep(de);
  }

  // -------------------------------------------------------------- measure

  ghost function Remaining(b: Bar): nat {
    match b
    case Linear(l) => L.Remaining(l)
    case OnTree(t) => T.Remaining(t)
    case Dissem(d) => D.Remaining(d)
  }

  /** A bound on the steps a call adds. */
  ghost function PerCall(b: Bar): nat {
    match b
    case Linear(l) => 2 * l.n + 5
    case OnTree(t) => 2 * Sum(KidCounts(t.tree)) + 5
    case Dissem(d) => 4 * d.rounds + 1
  }

  lemma InsideLowers(b: Bar, e: Step)
    requires Reached(b) && Shape(b) && Enabled(b, e) && !IsCall(e)
    ensures Remaining(Apply(b, e)) < Remaining(b) && PerCall(Apply(b, e)) == PerCall(b)
  {
    match b
    case Linear(l) =>
      L.LinearIsBarrier(l);
      assert L.NextInside(l, L.Apply(l, e.le));
      L.InsideLowers(l, L.Apply(l, e.le));
    case OnTree(t) => T.TreeIsBarrier(t); assert T.NextInside(t, T.Apply(t, e.te)); T.InsideLowers(t, T.Apply(t, e.te));
    case Dissem(d) =>
      D.DissemIsBarrier(d);
      assert D.NextInside(d, D.Apply(d, e.de));
      D.InsideLowers(d, D.Apply(d, e.de));
  }

  lemma CallCosts(b: Bar, p: nat)
    requires Reached(b) && Shape(b) && p < Size(b) && Enabled(b, CallOf(b, p))
    ensures Remaining(Apply(b, CallOf(b, p))) <= Remaining(b) + PerCall(b)
    ensures PerCall(Apply(b, CallOf(b, p))) == PerCall(b)
  {
    match b
    case Linear(l) =>
      var t := L.Apply(l, L.Call(p));
      assert L.Ranks(t) == L.Ranks(l)[p := L.Rank(l.n, t.pc[p])];
      SumUpdate(L.Ranks(l), p, L.Rank(l.n, t.pc[p]));
    case OnTree(s) =>
      var t := T.Apply(s, T.Call(p));
      assert T.Ranks(t) == T.Ranks(s)[p := T.Rank(|s.tree.kids[p]|, t.pc[p])];
      SumUpdate(T.Ranks(s), p, T.Rank(|s.tree.kids[p]|, t.pc[p]));
      PartOfSum(KidCounts(s.tree), p);
    case Dissem(d) =>
      var t := D.Apply(d, D.Call(p));
      assert D.Ranks(t) == D.Ranks(d)[p := D.Rank(d.rounds, t.pc[p])];
      SumUpdate(D.Ranks(d), p, D.Rank(d.rounds, t.pc[p]));
  }

  ghost function KidCounts(t: Tree): seq<nat> {
    seq(|t.kids|, p requires 0 <= p < |t.kids| => |t.kids[p]|)
  }

  lemma {:induction false} PartOfSum(s: seq<nat>, i: nat)
    requires i < |s|
    ensures s[i] <= Sum(s)
  {
    if i < |s| - 1 { PartOfSum(s[..|s| - 1], i); }
  }
}
