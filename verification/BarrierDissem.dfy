/** The dissemination barrier on reused pSync cells: in round r everybody pokes the PE 2^r ahead
    and waits for the PE 2^r behind. */
module BarrierDissem {
  import opened Runs
  import opened Bits
  import B = BarrierSpec

  datatype Pc =
    | Out
    | Poke(r: nat)     // loop head of round r: pokes, or leaves when 2^r >= size
    | Wait(r: nat)     // waits until its cell of round r is not zero
    | Reset(r: nat)    // about to subtract one from that cell

  datatype Increment = Increment(dst: nat, r: nat)

  /** cell[i][r] is PE i's pSync[r]; `flight` holds the increments under way. */
  datatype State = State(
    n: nat,
    rounds: nat,
    cell: seq<seq<int>>,
    pc: seq<Pc>,
    flight: multiset<Increment>,
    entered: seq<nat>,
    left: seq<nat>)

  datatype Event = Call(p: nat) | Run(p: nat) | Deliver(m: Increment)

  /** The rounds the loop runs: those with distance 2^r below the size. */
  ghost predicate IsRounds(n: nat, rounds: nat) {
    forall r: nat :: Exp2(r) < n <==> r < rounds
  }

  /** Every size has its number of rounds: count on from r as long as the distance is below the size. */
  function Rounds(n: nat, r: nat): (rounds: nat)
    requires forall k: nat :: k < r ==> Exp2(k) < n
    ensures IsRounds(n, rounds)
    decreases n - Exp2(r)
  {
    if Exp2(r) < n then Rounds(n, r + 1) else Exp2AllGrow(r); r
  }

  lemma Exp2AllGrow(r: nat)
    ensures forall k: nat :: k >= r ==> Exp2(k) >= Exp2(r)
  {
    forall k: nat | k >= r ensures Exp2(k) >= Exp2(r) { Exp2Grows(r, k); }
  }

  lemma {:induction false} Exp2Grows(a: nat, b: nat)
    requires a <= b
    ensures Exp2(a) <= Exp2(b)
  {
    if a < b { Exp2Grows(a, b - 1); }
  }

  ghost predicate Shape(s: State) {
    && s.n > 0 && IsRounds(s.n, s.rounds)
    && |s.cell| == |s.pc| == |s.entered| == |s.left| == s.n
    && (forall i :: 0 <= i < s.n ==> |s.cell[i]| == s.rounds)
  }

  ghost predicate Initial(s: State) {
    && Shape(s)
    && (forall i, r :: 0 <= i < s.n && 0 <= r < s.rounds ==> s.cell[i][r] == 0)
    && (forall i :: 0 <= i < s.n ==> s.pc[i] == Out && s.entered[i] == s.left[i] == 0)
    && s.flight == multiset{}
  }

  ghost predicate Enabled(s: State, e: Event)
    requires Shape(s)
  {
    match e
    case Call(p) => p < s.n && s.pc[p] == Out
    case Run(p) =>
      p < s.n &&
      (match s.pc[p]
       case Out => false
       case Poke(_) => true
       case Wait(r) => r < s.rounds && s.cell[p][r] != 0
       case Reset(r) => r < s.rounds)
    case Deliver(m) => m in s.flight && m.dst < s.n && m.r < s.rounds
  }

  ghost function AddCell(s: State, i: nat, r: nat, v: int): seq<seq<int>>
    requires Shape(s) && i < s.n && r < s.rounds
  {
    s.cell[i := s.cell[i][r := s.cell[i][r] + v]]
  }

  ghost function RunStep(s: State, p: nat): State
    requires Shape(s) && Enabled(s, Run(p))
  {
    match s.pc[p]
    case Poke(r) =>
      if Exp2(r) < s.n then
        AheadIsModulo(s.n, p, Exp2(r));
        s.(flight := s.flight + multiset{Increment(Ahead(s.n, p, Exp2(r)), r)}, pc := s.pc[p := Wait(r)])
      else s.(pc := s.pc[p := Out], left := s.left[p := s.left[p] + 1])
    case Wait(r) => s.(pc := s.pc[p := Reset(r)])
    case Reset(r) => s.(cell := AddCell(s, p, r, -1), pc := s.pc[p := Poke(r + 1)])
  }

  ghost function Apply(s: State, e: Event): (t: State)
    requires Shape(s) && Enabled(s, e)
    ensures Shape(t)
  {
    match e
    case Call(p) => s.(pc := s.pc[p := Poke(0)], entered := s.entered[p := s.entered[p] + 1])
    case Run(p) => RunStep(s, p)
    case Deliver(m) => s.(flight := s.flight - multiset{m}, cell := AddCell(s, m.dst, m.r, 1))
  }

  ghost predicate Next(s: State, t: State) {
    Shape(s) && exists e :: Enabled(s, e) && t == Apply(s, e)
  }

  ghost function Calls(s: State): B.Calls { B.Calls(s.entered, s.left) }

  // ------------------------------------------------------------ invariant

  function Round(pc: Pc): int { if pc.Out? then -1 else pc.r }

  /** The number of calls in which PE i has completed the rounds before r, and has poked in round r. */
  ghost function Through(s: State, i: nat, r: nat): nat requires Shape(s) && i < s.n {
    s.left[i] + if Round(s.pc[i]) >= r then 1 else 0
  }
  ghost function Sent(s: State, i: nat, r: nat): nat requires Shape(s) && i < s.n {
    s.left[i] + if Round(s.pc[i]) > r || (Round(s.pc[i]) == r && !s.pc[i].Poke?) then 1 else 0
  }

  ghost predicate PeOk(s: State, i: int)
    requires Shape(s)
  {
    0 <= i < s.n ==>
      && s.entered[i] == s.left[i] + (if s.pc[i].Out? then 0 else 1)
      && (s.pc[i].Poke? ==> s.pc[i].r <= s.rounds)
      && (s.pc[i].Wait? || s.pc[i].Reset? ==> s.pc[i].r < s.rounds)
      && (s.pc[i].Reset? ==> s.cell[i][s.pc[i].r] > 0)
  }

  /** A cell counts the pokes of its one source that are delivered and not yet consumed. */
  ghost predicate CellOk(s: State, i: int, r: int)
    requires Shape(s)
  {
    0 <= i < s.n && 0 <= r < s.rounds ==>
      var d := Exp2(r);
      && d < s.n && 0 <= Behind(s.n, i, d) < s.n
      && s.cell[i][r] >= 0
      && s.cell[i][r] + s.flight[Increment(i, r)] == Sent(s, Behind(s.n, i, d), r) - Through(s, i, r + 1)
  }

  /** After r rounds of its k-th call PE i knows that the 2^r PEs ending at itself have made that call. */
  ghost predicate WindowOk(s: State, i: int, r: int, d: int)
    requires Shape(s)
  {
    0 <= i < s.n && 0 <= r <= s.rounds && 0 <= d < s.n && d < Exp2(r) ==>
      0 <= Behind(s.n, i, d) < s.n && s.entered[Behind(s.n, i, d)] >= Through(s, i, r)
  }

  ghost predicate Inv(s: State) {
    && Shape(s)
    && (forall i {:trigger PeOk(s, i)} :: PeOk(s, i))
    && (forall i, r {:trigger CellOk(s, i, r)} :: CellOk(s, i, r))
    && (forall i, r, d {:trigger WindowOk(s, i, r, d)} :: WindowOk(s, i, r, d))
    && (forall m :: m in s.flight ==> m.dst < s.n && m.r < s.rounds)
  }

  lemma InitialInv(s: State)
    requires Initial(s)
    ensures Inv(s) && B.Start(Calls(s))
  {
    forall i, r ensures CellOk(s, i, r) {}
  }

  lemma KeepCall(s: State, p: nat)
    requires Inv(s) && Enabled(s, Call(p))
    ensures Inv(Apply(s, Call(p)))
  {
    var t := Apply(s, Call(p));
    forall i ensures PeOk(t, i) { assert PeOk(s, i); }
    forall i, r ensures CellOk(t, i, r) { assert CellOk(s, i, r); }
    forall i, r, d ensures WindowOk(t, i, r, d) { assert WindowOk(s, i, r, d) && PeOk(s, i); assert Exp2(0) == 1; }
  }

  lemma KeepPoke(s: State, p: nat)
    requires Inv(s) && Enabled(s, Run(p)) && s.pc[p].Poke? && Exp2(s.pc[p].r) < s.n
    ensures Inv(Apply(s, Run(p)))
  {
    var t := Apply(s, Run(p));
    var d := Exp2(s.pc[p].r);
    AheadIsModulo(s.n, p, d);
    forall i ensures PeOk(t, i) { assert PeOk(s, i); }
    forall i, r ensures CellOk(t, i, r) {
      assert CellOk(s, i, r);
      if 0 <= i < s.n && 0 <= r < s.rounds { AheadIsModulo(s.n, i, Exp2(r)); }
    }
    forall i, r, e ensures WindowOk(t, i, r, e) { assert WindowOk(s, i, r, e); }
  }

  lemma KeepLeave(s: State, p: nat)
    requires Inv(s) && Enabled(s, Run(p)) && s.pc[p].Poke? && Exp2(s.pc[p].r) >= s.n
    ensures Inv(Apply(s, Run(p)))
  {
    var t := Apply(s, Run(p));
    assert PeOk(s, p);
    forall i ensures PeOk(t, i) { assert PeOk(s, i); }
    forall i, r ensures CellOk(t, i, r) { assert CellOk(s, i, r); }
    forall i, r, e ensures WindowOk(t, i, r, e) { assert WindowOk(s, i, r, e); }
  }

  lemma KeepWait(s: State, p: nat)
    requires Inv(s) && Enabled(s, Run(p)) && s.pc[p].Wait?
    ensures Inv(Apply(s, Run(p)))
  {
    var t := Apply(s, Run(p));
    assert PeOk(s, p) && CellOk(s, p, s.pc[p].r);
    forall i ensures PeOk(t, i) { assert PeOk(s, i); }
    forall i, r ensures CellOk(t, i, r) { assert CellOk(s, i, r); }
    forall i, r, e ensures WindowOk(t, i, r, e) { assert WindowOk(s, i, r, e); }
  }

  /** Consuming the poke of the PE 2^r behind doubles the window: its 2^r PEs come before one's own 2^r. */
  lemma WindowDoubles(s: State, p: nat, d: int)
    requires Inv(s) && Enabled(s, Run(p)) && s.pc[p].Reset?
    requires 0 <= d < s.n && d < Exp2(s.pc[p].r + 1)
    ensures 0 <= Behind(s.n, p, d) < s.n && s.entered[Behind(s.n, p, d)] >= s.left[p] + 1
  {
    var r := s.pc[p].r;
    assert PeOk(s, p) && CellOk(s, p, r);
    if d < Exp2(r) {
      assert WindowOk(s, p, r, d);
    } else {
      var q := Behind(s.n, p, Exp2(r));
      assert WindowOk(s, q, r, d - Exp2(r));
      assert Behind(s.n, q, d - Exp2(r)) == Behind(s.n, p, d);
    }
  }

  lemma KeepReset(s: State, p: nat)
    requires Inv(s) && Enabled(s, Run(p)) && s.pc[p].Reset?
    ensures Inv(Apply(s, Run(p)))
  {
    var t := Apply(s, Run(p));
    assert PeOk(s, p);
    forall i ensures PeOk(t, i) { assert PeOk(s, i); }
    forall i, r ensures CellOk(t, i, r) { assert CellOk(s, i, r); }
    forall i, r, d ensures WindowOk(t, i, r, d) {
      assert WindowOk(s, i, r, d);
      if i == p && r == s.pc[p].r + 1 && 0 <= d < s.n && d < Exp2(r) { WindowDoubles(s, p, d); }
    }
  }

  lemma KeepDeliver(s: State, m: Increment)
    requires Inv(s) && Enabled(s, Deliver(m))
    ensures Inv(Apply(s, Deliver(m)))
  {
    var t := Apply(s, Deliver(m));
    forall i ensures PeOk(t, i) { assert PeOk(s, i); }
    forall i, r ensures CellOk(t, i, r) { assert CellOk(s, i, r); }
    forall i, r, d ensures WindowOk(t, i, r, d) { assert WindowOk(s, i, r, d); }
  }

  lemma StepKeepsInv(s: State, t: State)
    requires Inv(s) && Next(s, t)
    ensures Inv(t)
  {
    var e :| Enabled(s, e) && t == Apply(s, e);
    match e
    case Call(p) => KeepCall(s, p);
    case Deliver(m) => KeepDeliver(s, m);
    case Run(p) =>
      match s.pc[p]
      case Poke(r) => if Exp2(r) < s.n { KeepPoke(s, p); } else { KeepLeave(s, p); }
      case Wait(_) => KeepWait(s, p);
      case Reset(_) => KeepReset(s, p);
  }

  ghost predicate Reached(s: State) { Reachable(Initial, Next, s) }

  // ----------------------------------------------------------- refinement

  lemma RunCounters(s: State, p: nat)
    requires Shape(s) && Enabled(s, Run(p))
    ensures Apply(s, Run(p)).entered == s.entered
    ensures Apply(s, Run(p)).left == s.left
            || (s.pc[p].Poke? && Exp2(s.pc[p].r) >= s.n && Apply(s, Run(p)).left == s.left[p := s.left[p] + 1])
  {
  }

  /** After the last round the window is the whole active set. */
  lemma LeavesLegally(s: State, p: nat)
    requires Inv(s) && Enabled(s, Run(p)) && Apply(s, Run(p)).left != s.left
    ensures B.Leaves(Calls(s), Calls(Apply(s, Run(p))), p)
  {
    RunCounters(s, p);
    assert PeOk(s, p);
    forall q | 0 <= q < s.n ensures s.entered[q] >= s.entered[p] {
      var d := if q <= p then p - q else p - q + s.n;
      assert WindowOk(s, p, s.pc[p].r, d);
    }
  }

  lemma EntersLegally(s: State, p: nat)
    requires Inv(s) && Enabled(s, Call(p))
    ensures B.Enters(Calls(s), Calls(Apply(s, Call(p))), p)
  {
    assert PeOk(s, p);
  }

  lemma StepRefines(s: State, t: State)
    requires Inv(s) && Next(s, t)
    ensures Inv(t) && (Calls(t) == Calls(s) || B.Step(Calls(s), Calls(t)))
  {
    StepKeepsInv(s, t);
    var e :| Enabled(s, e) && t == Apply(s, e);
    match e
    case Call(p) => EntersLegally(s, p);
    case Deliver(_) =>
    case Run(p) => RunCounters(s, p); if t.left != s.left { LeavesLegally(s, p); }
  }

  /** Over any number of reuses of the same cells the dissemination barrier is a barrier. */
  lemma DissemIsBarrier(s: State)
    requires Reached(s)
    ensures Inv(s) && B.Allowed(Calls(s))
  {
    var run :| IsRun(Initial, Next, run) && run[|run| - 1] == s;
    forall t | Initial(t) ensures Inv(t) && B.Start(Calls(t)) { InitialInv(t); }
    forall t, u | Inv(t) && Next(t, u) ensures Inv(u) && (Calls(u) == Calls(t) || B.Step(Calls(t), Calls(u))) {
      StepRefines(t, u);
    }
    B.RefinesBarrier(Initial, Next, Inv, Calls, run);
  }

  /** What a PE knows inside its k-th call after completing the rounds before r:
      the min(size, 2^r) PEs that end at itself, cyclically, have made their k-th call. */
  lemma WindowHasEntered(s: State, p: nat, d: nat)
    requires Reached(s) && Shape(s) && p < s.n && s.pc[p] != Out && d < s.n && d < Exp2(Round(s.pc[p]))
    ensures 0 <= Behind(s.n, p, d) < s.n && s.entered[Behind(s.n, p, d)] >= s.entered[p]
  {
    DissemIsBarrier(s);
    assert PeOk(s, p) && WindowOk(s, p, Round(s.pc[p]), d);
  }

  /** A cell holds what its one source has sent and its owner has not consumed, and with the increments
      under way that is at most two. */
  lemma CellCounts(s: State, i: nat, r: nat)
    requires Reached(s) && Shape(s) && i < s.n && r < s.rounds
    ensures var src := Behind(s.n, i, Exp2(r));
            0 <= src < s.n && s.cell[i][r] + s.flight[Increment(i, r)] == Sent(s, src, r) - Through(s, i, r + 1)
    ensures 0 <= s.cell[i][r] <= s.cell[i][r] + s.flight[Increment(i, r)] <= 2
  {
    DissemIsBarrier(s);
    var src := Behind(s.n, i, Exp2(r));
    assert CellOk(s, i, r);
    assert PeOk(s, i) && PeOk(s, src);
    B.NobodyLeavesEarly(Calls(s), src, i);
  }

  // ------------------------------------------------------ deadlock freedom

  /** A step that is not a new call. */
  ghost predicate NextInside(s: State, t: State) {
    Shape(s) && exists e :: Enabled(s, e) && !e.Call? && t == Apply(s, e)
  }

  ghost predicate Stuck(s: State) requires Shape(s) {
    s.flight == multiset{} && forall q: nat :: q < s.n ==> !Enabled(s, Run(q))
  }

  /** A PE stuck in round r of its k-th call waits for one stuck in an earlier round of the same call;
      that cannot go on for ever. */
  lemma {:induction false} StuckInsideImpossible(s: State, p: nat)
    requires Inv(s) && Stuck(s) && p < s.n && s.pc[p] != Out
    requires forall q :: 0 <= q < s.n ==> s.entered[q] >= s.entered[p]
    ensures false
    decreases Round(s.pc[p])
  {
    assert PeOk(s, p) && !Enabled(s, Run(p));
    var r := s.pc[p].r;
    assert CellOk(s, p, r);
    var q := Behind(s.n, p, Exp2(r));
    assert PeOk(s, q) && !Enabled(s, Run(q));
    StuckInsideImpossible(s, q);
  }

  /** If a PE is inside its k-th call and everybody has made the k-th call, somebody can move. */
  lemma NoDeadlock(s: State, p: nat)
    requires Reached(s) && Shape(s) && p < s.n && s.pc[p] != Out
    requires forall q :: 0 <= q < s.n ==> s.entered[q] >= s.entered[p]
    ensures exists t :: NextInside(s, t)
  {
    DissemIsBarrier(s);
    if Stuck(s) {
      StuckInsideImpossible(s, p);
    } else if m :| m in s.flight {
      assert NextInside(s, Apply(s, Deliver(m)));
    } else {
      var q: nat :| q < s.n && Enabled(s, Run(q));
      assert NextInside(s, Apply(s, Run(q)));
    }
  }

  function Rank(rounds: nat, pc: Pc): nat {
    match pc
    case Out => 0
    case Poke(r) => if r <= rounds then 4 * (rounds - r) + 1 else 0
    case Wait(r) => if r < rounds then 4 * (rounds - r) - 1 else 0
    case Reset(r) => if r < rounds then 4 * (rounds - r) - 2 else 0
  }

  ghost function Ranks(s: State): seq<nat>
    requires Shape(s)
  {
    seq(s.n, p requires 0 <= p < s.n && Shape(s) => Rank(s.rounds, s.pc[p]))
  }

  /** What is left to do for the calls already made. */
  ghost function Remaining(s: State): nat {
    if Shape(s) then Sum(Ranks(s)) + |s.flight| else 0
  }

  lemma RunLowers(s: State, p: nat)
    requires Inv(s) && Enabled(s, Run(p))
    ensures Remaining(Apply(s, Run(p))) < Remaining(s)
  {
    assert PeOk(s, p);
    var t := Apply(s, Run(p));
    assert Ranks(t) == Ranks(s)[p := Rank(s.rounds, t.pc[p])];
    SumUpdate(Ranks(s), p, Rank(s.rounds, t.pc[p]));
  }

  lemma InsideLowers(s: State, t: State)
    requires Inv(s) && NextInside(s, t)
    ensures Next(s, t) && Remaining(t) < Remaining(s)
  {
    var e :| Enabled(s, e) && !e.Call? && t == Apply(s, e);
    if e.Deliver? { assert Ranks(t) == Ranks(s); } else { RunLowers(s, e.p); }
  }

  /** Whatever the schedule, the calls already made take boundedly many steps, and when no step is left
      each PE that is still inside waits for a PE that has not made that call yet. */
  lemma CallsComplete(path: seq<State>)
    requires IsPath(NextInside, path) && Reached(path[0])
    ensures |path| - 1 <= Remaining(path[0])
    ensures var s := path[|path| - 1];
            Shape(s) && ((forall t :: !NextInside(s, t)) ==>
              forall p :: 0 <= p < s.n && s.pc[p] != Out ==> exists q :: 0 <= q < s.n && s.entered[q] < s.entered[p])
  {
    forall s, t {:trigger NextInside(s, t)} | Reached(s) && NextInside(s, t)
      ensures Reached(t) && Remaining(t) < Remaining(s)
    {
      DissemIsBarrier(s);
      InsideLowers(s, t);
      ReachableStep(Initial, Next, s, t);
    }
    MeasureBoundsPath(NextInside, Reached, Remaining, path);
    var s := path[|path| - 1];
    DissemIsBarrier(s);
    if forall t :: !NextInside(s, t) {
      forall p | 0 <= p < s.n && s.pc[p] != Out
        ensures exists q :: 0 <= q < s.n && s.entered[q] < s.entered[p]
      {
        if forall q :: 0 <= q < s.n ==> s.entered[q] >= s.entered[p] { NoDeadlock(s, p); }
      }
    }
  }

  // ------------------------------------------------------------ cell count

  /** SHMEM_BARRIER_SYNC_SIZE: 4 divided by the number of ints in a long, which is 2. */
  const BARRIER_SYNC_SIZE := 4 / 2

  /** The next statement of PE p touches cell c of some PE's pSync. */
  ghost predicate Touches(s: State, p: nat, c: nat) {
    && Shape(s) && p < s.n
    && match s.pc[p]
       case Out => false
       case Poke(r) => c == r && Exp2(r) < s.n
       case Wait(r) => c == r
       case Reset(r) => c == r
  }

  /** Every run stays inside pSync arrays of the published size exactly when the active set has at most four PEs. */
  lemma PublishedSizeSuffices(n: nat)
    requires n > 0
    ensures (forall s, p: nat, c: nat {:trigger Touches(s, p, c)} ::
              Reached(s) && s.n == n && Touches(s, p, c) ==> c < BARRIER_SYNC_SIZE)
            <==> n <= 4
  {
    assert Exp2(2) == 4;
    if n <= 4 {
      forall s, p: nat, c: nat | Reached(s) && s.n == n && Touches(s, p, c) ensures c < BARRIER_SYNC_SIZE {
        DissemIsBarrier(s);
        assert PeOk(s, p);
        assert Exp2(c) < n <==> c < s.rounds;
        if c >= 2 { Exp2Grows(2, c); }
      }
    } else {
      var called := EverybodyCalls(n, n);
      var s := ThirdRound(called);
      assert Touches(s, 0, 2);
    }
  }

  /** The first k PEs have called and done nothing else. */
  lemma {:induction false} EverybodyCalls(n: nat, k: nat) returns (s: State)
    requires 0 < n && k <= n
    ensures Reached(s) && Shape(s) && s.n == n
    ensures forall p :: 0 <= p < n ==>
            s.entered[p] == (if p < k then 1 else 0) && s.pc[p] == if p < k then Poke(0) else Out
  {
    if k == 0 {
      var rounds := Rounds(n, 0);
      s := State(n, rounds, seq(n, _ => seq(rounds, _ => 0)), seq(n, _ => Out), multiset{}, seq(n, _ => 0),
        seq(n, _ => 0));
      ReachableInit(Initial, Next, s);
    } else {
      var t := EverybodyCalls(n, k - 1);
      s := Apply(t, Call(k - 1));
      assert Next(t, s);
      ReachableStep(Initial, Next, t, s);
    }
  }

  /** PE 0 is in its first two rounds, or about to poke in the third. */
  ghost predicate Early(s: State) {
    && Shape(s) && s.n > 4 && !s.pc[0].Out? && s.pc[0].r <= 2 && (s.pc[0].r == 2 ==> s.pc[0].Poke?)
    && forall p :: 0 <= p < s.n ==> s.entered[p] == 1
  }

  lemma {:induction false} ThirdRound(s: State) returns (t: State)
    requires Reached(s) && Early(s)
    ensures Reached(t) && Shape(t) && t.n == s.n && t.pc[0] == Wait(2)
    decreases Remaining(s)
  {
    NoDeadlock(s, 0);
    var u :| NextInside(s, u);
    DissemIsBarrier(s);
    InsideLowers(s, u);
    ReachableStep(Initial, Next, s, u);
    EarlyStep(s, u);
    if u.pc[0] == Wait(2) { t := u; } else { t := ThirdRound(u); }
  }

  lemma EarlyStep(s: State, u: State)
    requires Early(s) && NextInside(s, u)
    ensures Shape(u) && u.n == s.n && (Early(u) || u.pc[0] == Wait(2))
  {
    assert Exp2(0) == 1 && Exp2(1) == 2 && Exp2(2) == 4;
  }
}
