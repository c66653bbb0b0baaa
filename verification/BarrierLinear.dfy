/** The linear barrier on reused pSync cells: everybody pokes the root, the root resets its cell and acks. */
module BarrierLinear {
  import opened Runs
  import B = BarrierSpec

  /** A remote update under way: a poke increments the root's cell, an ack overwrites a PE's cell. */
  datatype Update = Poke(src: nat) | Ack(dst: nat, value: int)

  datatype Pc =
    | Out
    | Begin
    | RootWait           // root: waits for size - 1 pokes
    | RootReset
    | RootAck(i: nat)    // root: about to ack PE i
    | AckWait            // others: wait for a non-zero cell
    | AckReset

  /** One cell per PE; `poke` is the root's local of that name.  History: the calls made and returned from,
      the pokes counted in the root's cell, and the last ack value sent to each PE. */
  datatype State = State(
    n: nat,
    cell: seq<int>,
    pc: seq<Pc>,
    poke: int,
    flight: multiset<Update>,
    entered: seq<nat>,
    left: seq<nat>,
    arrived: set<nat>,
    ack: seq<int>)

  datatype Event = Call(p: nat) | Run(p: nat) | Deliver(u: Update)

  ghost predicate Shape(s: State) {
    s.n > 0 && |s.cell| == |s.pc| == |s.entered| == |s.left| == |s.ack| == s.n
  }

  ghost predicate Initial(s: State) {
    && Shape(s)
    && (forall p :: 0 <= p < s.n ==> s.cell[p] == 0 && s.pc[p] == Out && s.entered[p] == s.left[p] == 0)
    && s.flight == multiset{} && s.arrived == {}
  }

  ghost predicate Enabled(s: State, e: Event)
    requires Shape(s)
  {
    match e
    case Call(p) => p < s.n && s.pc[p] == Out
    case Run(p) =>
      p < s.n &&
      (match s.pc[p]
       case Out => false
       case RootWait => s.cell[p] == s.n - 1
       case AckWait => s.cell[p] != 0
       case _ => true)
    case Deliver(u) => u in s.flight && (u.Ack? ==> u.dst < s.n)
  }

  /** One statement of PE p; PE 0 is the root of the active set. */
  ghost function RunStep(s: State, p: nat): State
    requires Shape(s) && Enabled(s, Run(p))
  {
    match s.pc[p]
    case Begin =>
      if p == 0 then s.(poke := s.cell[0] + 1, pc := s.pc[p := RootWait])
      else s.(flight := s.flight + multiset{Poke(p)}, pc := s.pc[p := AckWait])
    case RootWait => s.(pc := s.pc[p := RootReset])
    case RootReset => s.(cell := s.cell[p := 0], pc := s.pc[p := RootAck(1)], arrived := {})
    case RootAck(i) =>
      if i < s.n then
        s.(flight := s.flight + multiset{Ack(i, s.poke)}, ack := s.ack[i := s.poke], pc := s.pc[p := RootAck(i + 1)])
      else s.(pc := s.pc[p := Out], left := s.left[p := s.left[p] + 1])
    case AckWait => s.(pc := s.pc[p := AckReset])
    case AckReset => s.(cell := s.cell[p := 0], pc := s.pc[p := Out], left := s.left[p := s.left[p] + 1])
  }

  ghost function Apply(s: State, e: Event): (t: State)
    requires Shape(s) && Enabled(s, e)
    ensures Shape(t)
  {
    match e
    case Call(p) => s.(pc := s.pc[p := Begin], entered := s.entered[p := s.entered[p] + 1])
    case Run(p) => RunStep(s, p)
    case Deliver(u) =>
      var s1 := s.(flight := s.flight - multiset{u});
      match u
      case Poke(src) => s1.(cell := s.cell[0 := s.cell[0] + 1], arrived := s.arrived + {src})
      case Ack(dst, v) => s1.(cell := s.cell[dst := v])
  }

  ghost predicate Next(s: State, t: State) {
    Shape(s) && exists e :: Enabled(s, e) && t == Apply(s, e)
  }

  ghost function Calls(s: State): B.Calls { B.Calls(s.entered, s.left) }

  // ------------------------------------------------------------ invariant

  /** How many times the root has collected all pokes, has acked q, and q has poked. */
  ghost function Collected(s: State): nat requires Shape(s) {
    s.left[0] + if s.pc[0].RootAck? then 1 else 0
  }
  ghost function Acked(s: State, q: nat): nat requires Shape(s) {
    s.left[0] + if s.pc[0].RootAck? && q < s.pc[0].i then 1 else 0
  }
  ghost function Poked(s: State, q: nat): nat requires Shape(s) && q < s.n {
    s.left[q] + if s.pc[q].AckWait? || s.pc[q].AckReset? then 1 else 0
  }

  ghost predicate RootOk(s: State)
    requires Shape(s)
  {
    && !s.pc[0].AckWait? && !s.pc[0].AckReset?
    && s.cell[0] == |s.arrived|
    && (forall q :: q in s.arrived ==> 1 <= q < s.n)
    && (s.pc[0].RootWait? || s.pc[0].RootReset? || s.pc[0].RootAck? ==> 1 <= s.poke <= s.n)
    && (s.pc[0].RootReset? ==> s.cell[0] == s.n - 1)
    && (s.pc[0].RootAck? ==> 1 <= s.pc[0].i <= s.n)
  }

  /** Every poke of q is collected, or counted in the root's cell, or on its way; every ack was
      consumed, or sits in q's cell, or is on its way; and none of the three can be two ahead. */
  ghost predicate PeOk(s: State, q: int)
    requires Shape(s)
  {
    && (0 <= q < s.n ==> s.entered[q] == s.left[q] + if s.pc[q].Out? then 0 else 1)
    && (1 <= q < s.n ==>
          && (s.pc[q].Out? || s.pc[q].Begin? || s.pc[q].AckWait? || s.pc[q].AckReset?)
          && (if Poked(s, q) == Collected(s) then s.flight[Poke(q)] == 0 && q !in s.arrived
              else
                && Poked(s, q) == Collected(s) + 1
                && s.flight[Poke(q)] == (if q in s.arrived then 0 else 1))
          && (if Acked(s, q) == s.left[q] then s.cell[q] == 0 && !s.pc[q].AckReset?
              else
                && Acked(s, q) == s.left[q] + 1 && 1 <= s.ack[q] <= s.n
                && (s.pc[q].AckWait? || s.pc[q].AckReset?)
                && (if s.cell[q] == 0 then s.flight[Ack(q, s.ack[q])] == 1 && s.pc[q].AckWait?
                    else s.cell[q] == s.ack[q] && s.flight[Ack(q, s.ack[q])] == 0)))
  }

  ghost predicate UpdateOk(s: State, u: Update)
    requires Shape(s)
  {
    u in s.flight ==>
      match u
      case Poke(q) => 1 <= q < s.n
      case Ack(q, v) => 1 <= q < s.n && v == s.ack[q] && Acked(s, q) != s.left[q]
  }

  ghost predicate Inv(s: State) {
    && Shape(s) && RootOk(s)
    && (forall q {:trigger PeOk(s, q)} :: PeOk(s, q))
    && (forall u {:trigger UpdateOk(s, u)} :: UpdateOk(s, u))
  }

  lemma KeepCall(s: State, p: nat)
    requires Inv(s) && Enabled(s, Call(p))
    ensures Inv(Apply(s, Call(p)))
  {
    var t := Apply(s, Call(p));
    forall q ensures PeOk(t, q) { assert PeOk(s, q); }
    forall u ensures UpdateOk(t, u) { assert UpdateOk(s, u); }
  }

  lemma KeepRunOther(s: State, p: nat)
    requires Inv(s) && Enabled(s, Run(p)) && p != 0
    ensures Inv(Apply(s, Run(p)))
  {
    var t := Apply(s, Run(p));
    assert PeOk(s, p);
    forall q ensures PeOk(t, q) { assert PeOk(s, q); }
    forall u ensures UpdateOk(t, u) { assert UpdateOk(s, u); }
  }

  lemma RunRootPe(s: State, q: int)
    requires Inv(s) && Enabled(s, Run(0))
    ensures PeOk(Apply(s, Run(0)), q)
  {
    assert PeOk(s, 0) && PeOk(s, q);
    if s.pc[0].RootReset? { AllArrived(s); }
    if s.pc[0].RootAck? { assert UpdateOk(s, Ack(s.pc[0].i, s.poke)); }
  }

  lemma RunRootUpdate(s: State, u: Update)
    requires Inv(s) && Enabled(s, Run(0))
    ensures UpdateOk(Apply(s, Run(0)), u)
  {
    assert PeOk(s, 0) && UpdateOk(s, u) && (u.Ack? ==> PeOk(s, u.dst));
    if s.pc[0].RootAck? { assert PeOk(s, s.pc[0].i); }
  }

  lemma RunRootRoot(s: State)
    requires Inv(s) && Enabled(s, Run(0))
    ensures RootOk(Apply(s, Run(0)))
  {
    assert PeOk(s, 0);
    Subset(s.arrived, s.n);
  }

  lemma KeepRunRoot(s: State)
    requires Inv(s) && Enabled(s, Run(0))
    ensures Inv(Apply(s, Run(0)))
  {
    var t := Apply(s, Run(0));
    RunRootRoot(s);
    forall q ensures PeOk(t, q) { RunRootPe(s, q); }
    forall u ensures UpdateOk(t, u) { RunRootUpdate(s, u); }
  }

  lemma KeepDeliver(s: State, u: Update)
    requires Inv(s) && Enabled(s, Deliver(u))
    ensures Inv(Apply(s, Deliver(u)))
  {
    var t := Apply(s, Deliver(u));
    assert UpdateOk(s, u) && PeOk(s, if u.Ack? then u.dst else u.src);
    if u.Poke? { Subset(s.arrived + {u.src}, s.n); }
    forall q ensures PeOk(t, q) { assert PeOk(s, q); }
    forall v ensures UpdateOk(t, v) { assert UpdateOk(s, v); }
  }

  /** A subset of {1, ..., n-1} has at most n-1 elements, and n-1 only if it is the whole. */
  lemma {:induction false} Subset(a: set<nat>, n: nat)
    requires n > 0 && forall q :: q in a ==> 1 <= q < n
    ensures |a| <= n - 1
    ensures |a| == n - 1 ==> forall q :: 1 <= q < n ==> q in a
  {
    if n > 1 {
      Subset(a - {n - 1}, n - 1);
      if n - 1 in a { assert |a - {n - 1}| == |a| - 1; } else { assert a - {n - 1} == a; }
    } else if q :| q in a {
      assert false;
    } else {
      assert a == {};
    }
  }

  lemma AllArrived(s: State)
    requires Inv(s) && s.cell[0] == s.n - 1
    ensures forall q :: 1 <= q < s.n ==> q in s.arrived
  {
    Subset(s.arrived, s.n);
  }

  lemma StepKeepsInv(s: State, t: State)
    requires Inv(s) && Next(s, t)
    ensures Inv(t)
  {
    var e :| Enabled(s, e) && t == Apply(s, e);
    match e
    case Call(p) => KeepCall(s, p);
    case Run(p) => if p == 0 { KeepRunRoot(s); } else { KeepRunOther(s, p); }
    case Deliver(u) => KeepDeliver(s, u);
  }

  ghost predicate Reached(s: State) { Reachable(Initial, Next, s) }

  lemma InitialInv(s: State)
    requires Initial(s)
    ensures Inv(s) && B.Start(Calls(s))
  {
  }

  // ----------------------------------------------------------- refinement

  /** A PE about to return from its call knows that every PE has made that call. */
  lemma LeavesLegally(s: State, p: nat)
    requires Inv(s) && Enabled(s, Run(p)) && Apply(s, Run(p)).left != s.left
    ensures B.Leaves(Calls(s), Calls(Apply(s, Run(p))), p)
  {
    assert PeOk(s, p) && PeOk(s, 0);
    forall q | 0 <= q < s.n ensures s.entered[q] >= s.entered[p] { assert PeOk(s, q); }
  }

  /** Every step of the linear barrier is a step of the specification or changes no call counter. */
  lemma StepRefines(s: State, t: State)
    requires Inv(s) && Next(s, t)
    ensures Inv(t) && (Calls(t) == Calls(s) || B.Step(Calls(s), Calls(t)))
  {
    StepKeepsInv(s, t);
    var e :| Enabled(s, e) && t == Apply(s, e);
    match e
    case Call(p) => EntersLegally(s, p);
    case Run(p) => RunTouchesLeft(s, p); if t.left != s.left { LeavesLegally(s, p); }
    case Deliver(u) =>
  }

  lemma EntersLegally(s: State, p: nat)
    requires Inv(s) && Enabled(s, Call(p))
    ensures B.Enters(Calls(s), Calls(Apply(s, Call(p))), p)
  {
    assert PeOk(s, p);
  }

  lemma RunTouchesLeft(s: State, p: nat)
    requires Shape(s) && Enabled(s, Run(p))
    ensures Apply(s, Run(p)).entered == s.entered
  {
  }

  /** Over any number of reuses of the same cells the linear barrier is a barrier. */
  lemma LinearIsBarrier(s: State)
    requires Reached(s)
    ensures Inv(s) && B.Allowed(Calls(s))
  {
    var run :| IsRun(Initial, Next, run) && run[|run| - 1] == s;
    forall t | Initial(t) ensures Inv(t) && B.Start(Calls(t)) { InitialInv(t); }
    forall t, u | Inv(t) && Next(t, u) ensures Inv(u) && (Calls(u) == Calls(t) || B.Step(Calls(t), Calls(u))) {
      StepRefines(t, u);
    }
    B.RefinesBarrier(Initial, Next, Inv, Calls, run);
  }

  /** The ack value, one more than the cell the root read at entry, is never the value the wait ignores,
      and the root's cell never counts past the value its equality wait looks for. */
  lemma AckNeverZero(s: State, q: nat, v: int)
    requires Reached(s) && Shape(s)
    ensures Ack(q, v) in s.flight ==> 1 <= v <= s.n
    ensures s.cell[0] <= s.n - 1
  {
    LinearIsBarrier(s);
    assert UpdateOk(s, Ack(q, v)) && PeOk(s, q);
    Subset(s.arrived, s.n);
  }

  /** The two resets never wipe out a poke or an ack of the next call. */
  lemma ResetLosesNothing(s: State, p: nat)
    requires Reached(s) && Shape(s) && Enabled(s, Run(p))
    ensures s.pc[p].RootReset? ==> forall q :: q in s.arrived ==> q < s.n && Poked(s, q) == s.entered[0]
    ensures s.pc[p].AckReset? && p > 0 ==> Acked(s, p) == s.entered[p]
  {
    LinearIsBarrier(s);
    assert PeOk(s, 0) && PeOk(s, p);
    forall q | q in s.arrived && s.pc[p].RootReset? ensures q < s.n && Poked(s, q) == s.entered[0] {
      assert PeOk(s, q) && PeOk(s, 0);
    }
  }

  // ------------------------------------------------------ deadlock freedom

  /** A step that is not a new call. */
  ghost predicate NextInside(s: State, t: State) {
    Shape(s) && exists e :: Enabled(s, e) && !e.Call? && t == Apply(s, e)
  }

  /** If a PE is inside its k-th call and everybody has made the k-th call, somebody can move. */
  lemma NoDeadlock(s: State, p: nat)
    requires Reached(s) && Shape(s) && p < s.n && s.pc[p] != Out
    requires forall q :: 0 <= q < s.n ==> s.entered[q] >= s.entered[p]
    ensures exists t :: NextInside(s, t)
  {
    LinearIsBarrier(s);
    var e: Event;
    assert PeOk(s, p) && PeOk(s, 0);
    if u :| u in s.flight {
      assert UpdateOk(s, u);
      e := Deliver(u);
    } else if q: nat :| q < s.n && Enabled(s, Run(q)) {
      e := Run(q);
    } else {
      assert !Enabled(s, Run(0)) && !Enabled(s, Run(p));
      WaitingRootMoves(s);
    }
    assert NextInside(s, Apply(s, e));
  }

  /** With nothing in flight and everybody inside the root's call or past it, the root's wait is over. */
  lemma WaitingRootMoves(s: State)
    requires Inv(s) && s.flight == multiset{} && s.pc[0].RootWait?
    requires forall q :: 0 <= q < s.n ==> s.entered[q] >= s.entered[0]
    requires forall q: nat :: 1 <= q < s.n ==> !Enabled(s, Run(q))
    ensures Enabled(s, Run(0))
  {
    assert PeOk(s, 0);
    forall q | 1 <= q < s.n ensures q in s.arrived {
      assert PeOk(s, q) && !Enabled(s, Run(q));
    }
    Full(s.arrived, s.n);
  }

  lemma {:induction false} Full(a: set<nat>, n: nat)
    requires n > 0 && forall q :: 1 <= q < n ==> q in a
    requires forall q :: q in a ==> 1 <= q < n
    ensures |a| == n - 1
  {
    if n > 1 {
      Full(a - {n - 1}, n - 1);
    } else if q :| q in a {
      assert false;
    } else {
      assert a == {};
    }
  }

  ghost function Rank(n: nat, pc: Pc): nat {
    match pc
    case Out => 0
    case Begin => 2 * n + 5
    case RootWait => 2 * n + 4
    case RootReset => 2 * n + 3
    case RootAck(i) => if i <= n then 2 * (n - i) + 1 else 0
    case AckWait => 2
    case AckReset => 1
  }

  ghost function Ranks(s: State): seq<nat>
    requires Shape(s)
  {
    seq(s.n, p requires 0 <= p < s.n && Shape(s) => Rank(s.n, s.pc[p]))
  }

  /** What is left to do for the calls already made. */
  ghost function Remaining(s: State): nat {
    if Shape(s) then Sum(Ranks(s)) + |s.flight| else 0
  }

  lemma RunLowersRank(s: State, p: nat)
    requires Inv(s) && Enabled(s, Run(p))
    ensures var t := Apply(s, Run(p));
            && |t.pc| == |s.pc| && t.n == s.n && (forall q :: 0 <= q < s.n && q != p ==> t.pc[q] == s.pc[q])
            && Rank(s.n, t.pc[p]) + |t.flight| < Rank(s.n, s.pc[p]) + |s.flight|
  {
    assert PeOk(s, p) && (p == 0 ==> RootOk(s));
  }

  lemma InsideLowers(s: State, t: State)
    requires Inv(s) && NextInside(s, t)
    ensures Next(s, t) && Remaining(t) < Remaining(s)
  {
    var e :| Enabled(s, e) && !e.Call? && t == Apply(s, e);
    if e.Deliver? {
      assert Ranks(t) == Ranks(s);
    } else {
      RunLowers(s, e.p, t);
    }
  }

  lemma RunLowers(s: State, p: nat, t: State)
    requires Inv(s) && Enabled(s, Run(p)) && t == Apply(s, Run(p)) && Shape(t)
    ensures Remaining(t) < Remaining(s)
  {
    RunLowersRank(s, p);
    assert Ranks(t) == Ranks(s)[p := Rank(s.n, t.pc[p])];
    SumUpdate(Ranks(s), p, Rank(s.n, t.pc[p]));
  }

  /** Whatever the schedule, the calls already made take boundedly many steps, and when no step is left
      each PE that is still inside waits for a PE that has not made that call yet. */
  lemma CallsComplete(path: seq<State>)
    requires IsPath(NextInside, path) && Reached(path[0])
    ensures |path| - 1 <= Remaining(path[0])
    ensures var s := path[|path| - 1];
            Shape(s) && ((forall t :: !NextInside(s, t)) ==>
              forall p :: 0 <= p < s.n && s.pc[p] != Out ==> exists q :: 0 <= q < s.n && s.entered[q] < s.entered[p])
  {
    forall s, t {:trigger NextInside(s, t)} | Reached(s) && NextInside(s, t)
      ensures Reached(t) && Remaining(t) < Remaining(s)
    {
      LinearIsBarrier(s);
      InsideLowers(s, t);
      ReachableStep(Initial, Next, s, t);
    }
    MeasureBoundsPath(NextInside, Reached, Remaining, path);
    var s := path[|path| - 1];
    LinearIsBarrier(s);
    if forall t :: !NextInside(s, t) {
      forall p | 0 <= p < s.n && s.pc[p] != Out
        ensures exists q :: 0 <= q < s.n && s.entered[q] < s.entered[p]
      {
        if forall q :: 0 <= q < s.n ==> s.entered[q] >= s.entered[p] { NoDeadlock(s, p); }
      }
    }
  }
}
