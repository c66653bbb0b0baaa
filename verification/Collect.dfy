/** The two concatenating collectives: fcollect, whose offsets are fixed, and collect, whose offsets
    travel from left to right as running sums.  Slices are put to everybody, then a barrier closes the call. */
module Collect {
  import opened Runs
  import opened Bits
  import opened Trees
  import B = BarrierSpec

  // -------------------------------------------------------- concatenation

  /** The first k contributions one after the other, and where the k-th one starts. */
  ghost function Concat(sources: seq<seq<int>>, k: nat): seq<int>
    requires k <= |sources|
  {
    if k == 0 then [] else Concat(sources, k - 1) + sources[k - 1]
  }
  ghost function Offset(sources: seq<seq<int>>, k: nat): nat
    requires k <= |sources|
  {
    |Concat(sources, k)|
  }

  lemma {:induction false} OffsetsGrow(sources: seq<seq<int>>, a: nat, b: nat)
    requires a < b <= |sources|
    ensures Offset(sources, a) + |sources[a]| <= Offset(sources, b)
  {
    if a + 1 < b { OffsetsGrow(sources, a, b - 1); }
  }

  /** If every slice sits at its offset the front of the target is the concatenation. */
  lemma {:induction false} SlicesTile(sources: seq<seq<int>>, target: seq<int>, k: nat)
    requires k <= |sources| && Offset(sources, |sources|) <= |target| && Offset(sources, k) <= |target|
    requires forall u :: 0 <= u < |sources| ==> HasSlice(sources, target, u)
    ensures target[..Offset(sources, k)] == Concat(sources, k)
  {
    if k > 0 {
      assert HasSlice(sources, target, k - 1);
      SlicesTile(sources, target, k - 1);
      var a, b := Offset(sources, k - 1), Offset(sources, k);
      assert target[..b] == target[..a] + target[a..b];
    }
  }

  ghost predicate HasSlice(sources: seq<seq<int>>, target: seq<int>, u: int) {
    0 <= u < |sources| ==>
      var a := Offset(sources, u);
      a + |sources[u]| <= |target| && target[a..a + |sources[u]|] == sources[u]
  }

  /** fcollect multiplies: with equal contributions the offset of PE k is nelems * k. */
  lemma {:induction false} EqualOffsets(sources: seq<seq<int>>, nelems: nat, k: nat)
    requires k <= |sources| && forall u :: 0 <= u < |sources| ==> |sources[u]| == nelems
    ensures Offset(sources, k) == nelems * k
  {
    if k > 0 { EqualOffsets(sources, nelems, k - 1); }
  }

  /** The send loop of both collectives: the PEs it visits are the active set, in order. */
  method Destinations(start: nat, logStride: nat, size: nat) returns (pes: seq<nat>)
    ensures |pes| == size && forall i :: 0 <= i < size ==> pes[i] == start + i * Exp2(logStride)
  {
    var step := Exp2(logStride);
    var pe := start;
    pes := [];
    for i := 0 to size
      invariant |pes| == i && pe == start + i * step
      invariant forall h :: 0 <= h < i ==> pes[h] == start + h * Exp2(logStride)
    {
      pes := pes + [pe];
      pe := pe + step;
    }
  }

  /** fcollect's slice index, (rank - start) >> logStride, is the PE's place in the active set,
      so different PEs write disjoint slices. */
  lemma SliceIndex(sources: seq<seq<int>>, start: nat, logStride: nat, u: nat, v: nat, nelems: nat)
    requires u < v < |sources| && forall w :: 0 <= w < |sources| ==> |sources[w]| == nelems
    ensures IndexOf(start, logStride, start + u * Exp2(logStride)) == u
    ensures nelems * u + nelems <= nelems * v && nelems * u == Offset(sources, u)
  {
    IndexRoundTrip(start, logStride, u);
    OffsetsGrow(sources, u, v);
    EqualOffsets(sources, nelems, u);
    EqualOffsets(sources, nelems, v);
  }

  // -------------------------------------------------------------- machine

  /** A put under way: a slice for somebody's target, or the running sum for the right neighbour's pSync. */
  datatype Put = Slice(src: nat, dst: nat, off: int, data: seq<int>) | Wave(src: nat, dst: nat, sum: int)

  datatype Pc =
    | Start                     // first PE clears its pSync, the others wait for it to be non-zero
    | Forward                   // about to put the running sum to the right neighbour
    | ReadOff                   // about to read its offset from pSync
    | Send(i: nat, off: int)    // about to put its slice to PE i
    | Reset                     // about to clear pSync
    | Quiet                     // waits for its puts, then calls the barrier
    | Closing                   // inside the barrier
    | Done

  /** `fixed` is fcollect.  The closing barrier is known by its contract only, and leaves every pSync alone until
      its owner has cleared it; CollectRun puts the real barriers in.  History: the slices that have landed in
      each target. */
  datatype State = State(
    fixed: bool,
    sources: seq<seq<int>>,
    init: seq<seq<int>>,
    target: seq<seq<int>>,
    cell: seq<int>,
    pc: seq<Pc>,
    flight: multiset<Put>,
    landed: seq<set<nat>>,
    calls: B.Calls)

  datatype Event = Run(p: nat) | Deliver(m: Put)

  ghost predicate Shape(s: State) {
    var n := |s.sources|;
    && n > 0
    && |s.init| == |s.target| == |s.cell| == |s.pc| == |s.landed| == |s.calls.entered| == |s.calls.left| == n
    && (forall p :: 0 <= p < n ==> |s.target[p]| == |s.init[p]| >= Offset(s.sources, n))
  }

  ghost predicate Initial(s: State) {
    && Shape(s) && s.target == s.init && s.flight == multiset{} && B.Start(s.calls)
    && (forall p :: 0 <= p < |s.sources| ==> s.cell[p] == 0 && s.landed[p] == {})
    && (forall p :: 0 <= p < |s.sources| ==> s.pc[p] == if s.fixed then Send(0, Offset(s.sources, p)) else Start)
  }

  ghost predicate Enabled(s: State, e: Event)
    requires Shape(s)
  {
    match e
    case Run(p) =>
      p < |s.sources| &&
      (match s.pc[p]
       case Start => p == 0 || s.cell[p] != 0
       case Quiet => forall m :: m in s.flight ==> m.src != p
       case Closing => B.MayLeave(s.calls, p)
       case Done => false
       case _ => true)
    case Deliver(m) => m in s.flight && m.dst < |s.sources|
  }

  ghost function RunStep(s: State, p: nat): State
    requires Shape(s) && Enabled(s, Run(p))
  {
    match s.pc[p]
    case Start => s.(cell := if p == 0 then s.cell[p := 0] else s.cell, pc := s.pc[p := Forward])
    case Forward =>
      s.(flight := if p < |s.sources| - 1
                   then s.flight + multiset{Wave(p, p + 1, s.cell[p] + |s.sources[p]|)} else s.flight,
         pc := s.pc[p := ReadOff])
    case ReadOff => s.(pc := s.pc[p := Send(0, s.cell[p])])
    case Send(i, off) =>
      if i < |s.sources| then
        s.(flight := s.flight + multiset{Slice(p, i, off, s.sources[p])}, pc := s.pc[p := Send(i + 1, off)])
      else s.(pc := s.pc[p := if s.fixed then Quiet else Reset])
    case Reset => s.(cell := s.cell[p := 0], pc := s.pc[p := Quiet])
    case Quiet =>
      s.(pc := s.pc[p := Closing], calls := s.calls.(entered := s.calls.entered[p := s.calls.entered[p] + 1]))
    case Closing => s.(pc := s.pc[p := Done], calls := s.calls.(left := s.calls.left[p := s.calls.left[p] + 1]))
  }

  /** A target after a slice has landed in it.  What does not fit goes behind the array, where the model does not
      look. */
  ghost function WithSlice(target: seq<int>, off: int, data: seq<int>): (r: seq<int>)
    ensures |r| == |target|
    ensures forall k :: 0 <= k < |r| ==> r[k] == if off <= k < off + |data| then data[k - off] else target[k]
  {
    seq(|target|, k requires 0 <= k < |target| => if off <= k < off + |data| then data[k - off] else target[k])
  }

  ghost function Apply(s: State, e: Event): (t: State)
    requires Shape(s) && Enabled(s, e)
    ensures Shape(t) && t.sources == s.sources && t.init == s.init && t.fixed == s.fixed
  {
    match e
    case Run(p) => RunStep(s, p)
    case Deliver(m) =>
      var s1 := s.(flight := s.flight - multiset{m});
      (match m
       case Slice(src, dst, off, data) =>
         s1.(target := s.target[dst := WithSlice(s.target[dst], off, data)],
           landed := s.landed[dst := s.landed[dst] + {src}])
       case Wave(_, dst, sum) => s1.(cell := s.cell[dst := sum]))
  }

  ghost predicate Next(s: State, t: State) {
    Shape(s) && exists e :: Enabled(s, e) && t == Apply(s, e)
  }

  // ------------------------------------------------------------ invariant

  ghost function Sent(s: State, u: nat): nat requires Shape(s) && u < |s.sources| {
    match s.pc[u]
    case Start => 0 case Forward => 0 case ReadOff => 0
    case Send(i, _) => i
    case _ => |s.sources|
  }
  ghost function SliceOf(s: State, u: nat, v: nat): Put requires Shape(s) && u < |s.sources| {
    Slice(u, v, Offset(s.sources, u), s.sources[u])
  }
  ghost function WaveTo(s: State, p: nat): Put requires Shape(s) && 1 <= p < |s.sources| {
    Wave(p - 1, p, Offset(s.sources, p))
  }

  /** PE u's slice for PE v was sent once, and has landed or is on its way. */
  ghost predicate SliceOk(s: State, u: int, v: int)
    requires Shape(s)
  {
    0 <= u < |s.sources| && 0 <= v < |s.sources| ==>
      && s.flight[SliceOf(s, u, v)] + (if u in s.landed[v] then 1 else 0) == (if v < Sent(s, u) then 1 else 0)
      && (u in s.landed[v] ==> HasSlice(s.sources, s.target[v], u))
  }

  ghost predicate PeOk(s: State, p: int)
    requires Shape(s)
  {
    0 <= p < |s.sources| ==>
      && Sent(s, p) <= |s.sources|
      && s.calls.entered[p] == (if s.pc[p].Closing? || s.pc[p].Done? then 1 else 0)
      && s.calls.left[p] == (if s.pc[p].Done? then 1 else 0)
      && (s.pc[p].Send? ==> s.pc[p].off == Offset(s.sources, p))
      && (s.pc[p].Closing? || s.pc[p].Done? ==> forall v :: 0 <= v < |s.sources| ==> p in s.landed[v])
      && (s.fixed ==> !s.pc[p].Start? && !s.pc[p].Forward? && !s.pc[p].ReadOff? && !s.pc[p].Reset?)
      && (forall k :: Offset(s.sources, |s.sources|) <= k < |s.target[p]| ==> s.target[p][k] == s.init[p][k])
  }

  /** The running sum for PE p is not sent yet, on its way, or in its pSync until p clears it. */
  ghost predicate WaveOk(s: State, p: int)
    requires Shape(s)
  {
    0 <= p < |s.sources| && !s.fixed ==>
      if p == 0 then s.cell[0] == 0
      else if s.pc[p - 1].Start? || s.pc[p - 1].Forward? then
        s.cell[p] == 0 && s.flight[WaveTo(s, p)] == 0 && s.pc[p].Start?
      else if s.flight[WaveTo(s, p)] == 0 then
        s.cell[p] == (if s.pc[p].Quiet? || s.pc[p].Closing? || s.pc[p].Done? then 0 else Offset(s.sources, p))
      else s.flight[WaveTo(s, p)] == 1 && s.cell[p] == 0 && s.pc[p].Start?
  }

  ghost predicate PutOk(s: State, m: Put)
    requires Shape(s)
  {
    m in s.flight ==>
      && m.src < |s.sources| && m.dst < |s.sources|
      && (if m.Slice? then m == SliceOf(s, m.src, m.dst) else !s.fixed && 1 <= m.dst && m == WaveTo(s, m.dst))
  }

  ghost predicate Core(s: State)
    requires Shape(s)
  {
    && (forall u, v {:trigger SliceOk(s, u, v)} :: SliceOk(s, u, v))
    && (forall p {:trigger PeOk(s, p)} :: PeOk(s, p))
    && (forall p {:trigger WaveOk(s, p)} :: WaveOk(s, p))
    && (forall m {:trigger PutOk(s, m)} :: PutOk(s, m))
  }

  ghost predicate Inv(s: State) {
    Shape(s) && B.Good(s.calls) && Core(s)
  }

  lemma RunKeepsWaves(s: State, p: nat)
    requires Inv(s) && Enabled(s, Run(p)) && !s.pc[p].Send?
    ensures forall q {:trigger WaveOk(Apply(s, Run(p)), q)} :: WaveOk(Apply(s, Run(p)), q)
  {
    var t := Apply(s, Run(p));
    assert PeOk(s, p) && WaveOk(s, p) && WaveOk(s, p + 1);
    forall q ensures WaveOk(t, q) { assert WaveOk(s, q); }
  }

  lemma RunKeepsSlices(s: State, p: nat)
    requires Inv(s) && Enabled(s, Run(p)) && !s.pc[p].Send?
    ensures forall u, v {:trigger SliceOk(Apply(s, Run(p)), u, v)} :: SliceOk(Apply(s, Run(p)), u, v)
  {
    var t := Apply(s, Run(p));
    forall u, v ensures SliceOk(t, u, v) { assert SliceOk(s, u, v); }
  }

  lemma KeepRunCore(s: State, p: nat)
    requires Inv(s) && Enabled(s, Run(p)) && !s.pc[p].Send?
    ensures Core(Apply(s, Run(p)))
  {
    var t := Apply(s, Run(p));
    assert PeOk(s, p) && WaveOk(s, p);
    if s.pc[p].Quiet? {
      forall v | 0 <= v < |s.sources| ensures p in s.landed[v] { assert SliceOk(s, p, v); }
    }
    RunKeepsSlices(s, p);
    RunKeepsWaves(s, p);
    forall q ensures PeOk(t, q) { assert PeOk(s, q); }
    forall m ensures PutOk(t, m) { assert PutOk(s, m); }
  }

  lemma SendSlice(s: State, p: nat, u: int, v: int)
    requires Inv(s) && Enabled(s, Run(p)) && s.pc[p].Send?
    ensures SliceOk(Apply(s, Run(p)), u, v)
  {
    assert PeOk(s, p) && SliceOk(s, u, v);
  }

  lemma KeepSendCore(s: State, p: nat)
    requires Inv(s) && Enabled(s, Run(p)) && s.pc[p].Send?
    ensures Core(Apply(s, Run(p)))
  {
    var t := Apply(s, Run(p));
    assert PeOk(s, p) && WaveOk(s, p);
    forall u, v ensures SliceOk(t, u, v) { SendSlice(s, p, u, v); }
    forall q ensures PeOk(t, q) { assert PeOk(s, q); }
    forall q ensures WaveOk(t, q) { assert WaveOk(s, q); }
    forall m ensures PutOk(t, m) { assert PutOk(s, m); }
  }

  lemma KeepDeliverWave(s: State, m: Put)
    requires Inv(s) && Enabled(s, Deliver(m)) && m.Wave?
    ensures Core(Apply(s, Deliver(m)))
  {
    var t := Apply(s, Deliver(m));
    assert PutOk(s, m) && WaveOk(s, m.dst);
    forall u, v ensures SliceOk(t, u, v) { assert SliceOk(s, u, v); }
    forall q ensures PeOk(t, q) { assert PeOk(s, q); }
    forall q ensures WaveOk(t, q) { assert WaveOk(s, q); }
    forall o ensures PutOk(t, o) { assert PutOk(s, o); }
  }

  /** A slice lands where no other slice is and inside the concatenation. */
  lemma LandsApart(s: State, u: nat, w: nat, v: nat)
    requires Shape(s) && u < |s.sources| && w < |s.sources| && v < |s.sources|
    ensures Offset(s.sources, u) + |s.sources[u]| <= Offset(s.sources, |s.sources|)
    ensures w != u && HasSlice(s.sources, s.target[v], w)
            ==> HasSlice(s.sources, WithSlice(s.target[v], Offset(s.sources, u), s.sources[u]), w)
    ensures HasSlice(s.sources, WithSlice(s.target[v], Offset(s.sources, u), s.sources[u]), u)
  {
    OffsetsGrow(s.sources, u, |s.sources|);
    if w < u { OffsetsGrow(s.sources, w, u); } else if u < w { OffsetsGrow(s.sources, u, w); }
  }

  lemma KeepDeliverSlice(s: State, m: Put)
    requires Inv(s) && Enabled(s, Deliver(m)) && m.Slice?
    ensures Core(Apply(s, Deliver(m)))
  {
    var t := Apply(s, Deliver(m));
    assert PutOk(s, m) && SliceOk(s, m.src, m.dst);
    LandsApart(s, m.src, m.src, m.dst);
    forall u, v ensures SliceOk(t, u, v) {
      assert SliceOk(s, u, v);
      if 0 <= u < |s.sources| && v == m.dst { LandsApart(s, m.src, u, m.dst); }
    }
    forall q ensures PeOk(t, q) { assert PeOk(s, q); }
    forall q ensures WaveOk(t, q) { assert WaveOk(s, q); }
    forall o ensures PutOk(t, o) { assert PutOk(s, o); }
  }

  lemma KeepCalls(s: State, e: Event)
    requires Inv(s) && Enabled(s, e)
    ensures B.Good(Apply(s, e).calls)
  {
    if e.Run? {
      assert PeOk(s, e.p);
    }
  }

  lemma StepKeepsInv(s: State, t: State)
    requires Inv(s) && Next(s, t)
    ensures Inv(t)
  {
    var e :| Enabled(s, e) && t == Apply(s, e);
    KeepCalls(s, e);
    match e
    case Run(p) => if s.pc[p].Send? { KeepSendCore(s, p); } else { KeepRunCore(s, p); }
    case Deliver(m) => if m.Slice? { KeepDeliverSlice(s, m); } else { KeepDeliverWave(s, m); }
  }

  ghost predicate Reached(s: State) { Reachable(Initial, Next, s) }

  lemma InitialInv(s: State)
    requires Initial(s)
    ensures Inv(s)
  {
    forall p ensures PeOk(s, p) {}
    forall u, v ensures SliceOk(s, u, v) {}
    forall p ensures WaveOk(s, p) {}
  }

  lemma ReachedInv(s: State)
    requires Reached(s)
    ensures Inv(s)
  {
    forall t | Initial(t) ensures Inv(t) { InitialInv(t); }
    forall t, u | Inv(t) && Next(t, u) ensures Inv(u) { StepKeepsInv(t, u); }
    ReachableInvariant(Initial, Next, Inv, s);
  }

  // -------------------------------------------------------------- results

  /** When any PE returns, its whole target is the concatenation of all contributions in PE order,
      and what lies behind is untouched. */
  lemma TargetIsConcatenation(s: State, p: nat)
    requires Reached(s) && Shape(s) && p < |s.sources| && s.pc[p] == Done
    ensures Collected(s, p)
  {
    ReachedInv(s);
    assert PeOk(s, p);
    forall u | 0 <= u < |s.sources| ensures HasSlice(s.sources, s.target[p], u) {
      assert PeOk(s, u) && SliceOk(s, u, p);
    }
    SlicesTile(s.sources, s.target[p], |s.sources|);
  }

  ghost predicate Collected(s: State, p: nat)
    requires Shape(s) && p < |s.sources|
  {
    var total := Offset(s.sources, |s.sources|);
    s.target[p][..total] == Concat(s.sources, |s.sources|) && s.target[p][total..] == s.init[p][total..]
  }

  /** The offset a PE uses is the sum of the contributions to its left. */
  lemma OffsetIsPrefixSum(s: State, p: nat)
    requires Reached(s) && Shape(s) && p < |s.sources| && s.pc[p].Send?
    ensures s.pc[p].off == Offset(s.sources, p)
  {
    ReachedInv(s);
    assert PeOk(s, p);
  }

  // ------------------------------------------------------------- progress

  /** collect can get going: the second PE waits for a non-zero running sum. */
  ghost predicate Starts(s: State) {
    s.fixed || |s.sources| == 1 || (|s.sources| > 0 && |s.sources[0]| > 0)
  }

  /** Nothing is in flight, and no PE outside the barrier can move. */
  ghost predicate StuckBefore(s: State)
    requires Shape(s)
  {
    s.flight == multiset{} && forall r: nat :: r < |s.sources| && !s.pc[r].Closing? ==> !Enabled(s, Run(r))
  }

  /** Then every PE has reached the barrier, from left to right. */
  lemma {:induction false} StuckAtBarrier(s: State, q: nat)
    requires Inv(s) && StuckBefore(s) && Starts(s) && q < |s.sources|
    ensures s.calls.entered[q] == 1
    decreases q
  {
    assert PeOk(s, q) && WaveOk(s, q);
    if q > 0 {
      StuckAtBarrier(s, q - 1);
      assert PeOk(s, q - 1);
      OffsetsGrow(s.sources, 0, q);
    }
  }

  lemma CanLand(s: State, m: Put)
    requires Inv(s) && m in s.flight
    ensures Enabled(s, Deliver(m))
  {
    assert PutOk(s, m);
  }

  /** As long as some PE has not reached the barrier, somebody who has not can move, or a put can land. */
  lemma SomebodyMoves(s: State, p: nat) returns (e: Event)
    requires Inv(s) && Starts(s) && p < |s.sources| && s.calls.entered[p] == 0
    ensures Enabled(s, e) && (e.Run? ==> !s.pc[e.p].Closing?)
  {
    if m :| m in s.flight {
      CanLand(s, m);
      e := Deliver(m);
    } else if q: nat :| q < |s.sources| && !s.pc[q].Closing? && Enabled(s, Run(q)) {
      e := Run(q);
    } else {
      StuckAtBarrier(s, p);
      assert false;
    }
  }

  lemma EmptyFirstSum(sources: seq<seq<int>>)
    requires |sources| > 1 && |sources[0]| == 0
    ensures Offset(sources, 1) == 0
  {
    assert Concat(sources, 0) == [] && Concat(sources, 1) == [] + sources[0];
  }

  /** With an empty first contribution the second PE never sees a running sum. */
  lemma SecondWaits(s: State)
    requires Reached(s) && Shape(s) && !Starts(s)
    ensures s.pc[1].Start? && s.cell[1] == 0
  {
    forall t | Initial(t) ensures SecondAtStart(t) {}
    forall t, u | SecondAtStart(t) && Next(t, u) ensures SecondAtStart(u) { SecondStillWaits(t, u); }
    ReachableInvariant(Initial, Next, SecondAtStart, s);
  }

  ghost predicate SecondAtStart(s: State) {
    Inv(s) && (!Starts(s) ==> s.pc[1].Start? && s.cell[1] == 0)
  }

  lemma SecondStillWaits(s: State, t: State)
    requires SecondAtStart(s) && Next(s, t)
    ensures SecondAtStart(t)
  {
    StepKeepsInv(s, t);
    var e :| Enabled(s, e) && t == Apply(s, e);
    if !Starts(s) { SecondCell(s, e); }
  }

  lemma SecondCell(s: State, e: Event)
    requires SecondAtStart(s) && Enabled(s, e) && !Starts(s)
    ensures Apply(s, e).pc[1].Start? && Apply(s, e).cell[1] == 0
  {
    if e.Deliver? && e.m.Wave? && e.m.dst == 1 {
      assert PutOk(s, e.m);
      EmptyFirstSum(s.sources);
    }
  }

  // -------------------------------------------------------------- measure

  /** Entering the barrier leaves `inside` steps of that PE to the barrier. */
  function Weight(n: nat, inside: nat, pc: Pc): nat {
    match pc
    case Start => inside + 2 * n + 9
    case Forward => inside + 2 * n + 8
    case ReadOff => inside + 2 * n + 6
    case Send(i, _) => if i <= n then inside + 2 * (n - i) + 5 else 0
    case Reset => inside + 3
    case Quiet => inside + 2
    case Closing => 1
    case Done => 0
  }

  ghost function Weights(s: State, inside: nat): seq<nat>
    requires Shape(s)
  {
    seq(|s.sources|, p requires 0 <= p < |s.sources| && Shape(s) => Weight(|s.sources|, inside, s.pc[p]))
  }

  ghost function Remaining(s: State, inside: nat): nat {
    if Shape(s) then Sum(Weights(s, inside)) + |s.flight| else 0
  }

  lemma DeliverLowers(s: State, m: Put, inside: nat)
    requires Shape(s) && Enabled(s, Deliver(m))
    ensures Remaining(Apply(s, Deliver(m)), inside) < Remaining(s, inside)
  {
    assert Weights(Apply(s, Deliver(m)), inside) == Weights(s, inside);
  }

  lemma RunLowers(s: State, p: nat, inside: nat)
    requires Inv(s) && Enabled(s, Run(p))
    ensures Remaining(Apply(s, Run(p)), inside) + (if s.pc[p].Quiet? then inside else 0) < Remaining(s, inside)
  {
    assert PeOk(s, p);
    RunCosts(s, p, inside);
  }

  lemma RunCosts(s: State, p: nat, inside: nat)
    requires Shape(s) && Enabled(s, Run(p)) && Sent(s, p) <= |s.sources|
    ensures Remaining(Apply(s, Run(p)), inside) + (if s.pc[p].Quiet? then inside else 0) < Remaining(s, inside)
  {
    var t := Apply(s, Run(p));
    assert Weights(t, inside) == Weights(s, inside)[p := Weight(|s.sources|, inside, t.pc[p])];
    SumUpdate(Weights(s, inside), p, Weight(|s.sources|, inside, t.pc[p]));
  }

  // ------------------------------------------------------------- schedules

  /** Only the last PE goes beyond reading its offset, and it does not call the barrier yet. */
  ghost predicate Parked(s: State)
    requires Shape(s)
  {
    && !s.fixed
    && (forall q :: 0 <= q < |s.sources| - 1 ==> s.pc[q].Start? || s.pc[q].Forward? || s.pc[q].ReadOff?)
    && !s.pc[|s.sources| - 1].Closing? && !s.pc[|s.sources| - 1].Done?
  }

  ghost predicate LastIsReady(s: State)
    requires Shape(s)
  {
    s.pc[|s.sources| - 1].Quiet? && s.flight == multiset{} && forall q :: 0 <= q < |s.sources| - 1 ==> s.pc[q].ReadOff?
  }

  /** From left to right everybody can forward its sum, and then the last PE can put its slice everywhere. */
  lemma ParkStep(s: State) returns (e: Event)
    requires Inv(s) && Parked(s) && Starts(s) && |s.sources| > 1 && !LastIsReady(s)
    ensures Enabled(s, e) && (e.Run? ==> !s.pc[e.p].Quiet? && !s.pc[e.p].Closing?) && Parked(Apply(s, e))
  {
    var last := |s.sources| - 1;
    if m :| m in s.flight {
      CanLand(s, m);
      e := Deliver(m);
    } else if q: nat :| q < last && (s.pc[q].Start? || s.pc[q].Forward?)
                        && forall r :: 0 <= r < q ==> s.pc[r].ReadOff? {
      LeftmostMoves(s, q);
      e := Run(q);
    } else {
      FirstNotReading(s, last);
      LeftmostMoves(s, last);
      e := Run(last);
    }
  }

  /** The first PE that has not come to reading its offset can move. */
  lemma LeftmostMoves(s: State, q: nat)
    requires Inv(s) && !s.fixed && Starts(s) && |s.sources| > 1 && q < |s.sources| && s.flight == multiset{}
    requires forall r :: 0 <= r < q ==> s.pc[r].ReadOff?
    requires !s.pc[q].Closing? && !s.pc[q].Done?
    ensures Enabled(s, Run(q))
  {
    assert WaveOk(s, q);
    if q > 0 { OffsetsGrow(s.sources, 0, q); }
  }

  lemma {:induction false} FirstNotReading(s: State, k: nat)
    requires Shape(s) && k < |s.sources|
    requires forall q :: 0 <= q < k ==> s.pc[q].Start? || s.pc[q].Forward? || s.pc[q].ReadOff?
    requires !exists q: nat ::
               q < k && (s.pc[q].Start? || s.pc[q].Forward?) && forall r :: 0 <= r < q ==> s.pc[r].ReadOff?
    ensures forall q :: 0 <= q < k ==> s.pc[q].ReadOff?
  {
    if k > 0 { FirstNotReading(s, k - 1); }
  }

  /** Only the first PE moves, up to the barrier. */
  ghost predicate Alone(s: State)
    requires Shape(s)
  {
    && !s.fixed && (forall q :: 1 <= q < |s.sources| ==> s.pc[q].Start?)
    && !s.pc[0].Closing? && !s.pc[0].Done?
  }

  lemma AloneStep(s: State) returns (e: Event)
    requires Inv(s) && Alone(s) && !(s.pc[0].Quiet? && s.flight == multiset{})
    ensures Enabled(s, e) && (e.Run? ==> !s.pc[e.p].Quiet? && !s.pc[e.p].Closing?) && Alone(Apply(s, e))
  {
    if m :| m in s.flight {
      CanLand(s, m);
      e := Deliver(m);
    } else {
      e := Run(0);
    }
  }
}
