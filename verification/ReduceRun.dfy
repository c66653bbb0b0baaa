/** The reduction as it runs on all PEs at once: each PE reads the others' memory while they work,
    and only the two barriers keep the sources intact. */
module ReduceRun {
  import opened Runs
  import opened Reduce
  import opened Bits
  import opened Lists
  import B = BarrierSpec

  datatype Pc =
    | Init                       // about to copy its source into write_to and call the first barrier
    | Bar1
    | Gather(i: nat, ti: nat)    // about to pull the next chunk of PE i, ti elements of it are folded in
    | Bar2
    | Finish                     // about to copy the temporary target, if it used one
    | Done

  /** Every PE's memory (`src` and `tgt` are element offsets of the symmetric arrays) and its temporary target. */
  datatype State = State(
    op: (int, int) -> int, nreduce: nat, w: nat, src: nat, tgt: nat, overlap: bool,
    init: seq<seq<int>>,
    mem: seq<seq<int>>,
    tmp: seq<seq<int>>,
    pc: seq<Pc>,
    calls: B.Calls)

  predicate Apart(a: nat, b: nat, len: nat) { a + len <= b || b + len <= a }

  /** When the code's check reports no overlap the two arrays share no element. */
  lemma CheckKeepsApart(src: nat, tgt: nat, nreduce: nat, size: nat)
    requires size > 0 && !OverlapCheck(tgt * size, src * size, nreduce, size)
    ensures Apart(src, tgt, nreduce)
  {
    OverlapNeverMissed(tgt * size, src * size, nreduce, size);
    if !Apart(src, tgt, nreduce) {
      var x := if src >= tgt then src else tgt;
      Monotone(src, x, size); Monotone(tgt, x, size);
      Monotone(x + 1, src + nreduce, size); Monotone(x + 1, tgt + nreduce, size);
      assert (x + 1) * size == x * size + size;
      assert InArea(x * size, tgt * size, size * nreduce) && InArea(x * size, src * size, size * nreduce);
    }
  }

  ghost predicate Shape(s: State) {
    var n := |s.mem|;
    && n > 0 && s.w > 0 && |s.init| == |s.tmp| == |s.pc| == |s.calls.entered| == |s.calls.left| == n
    && (s.overlap || Apart(s.src, s.tgt, s.nreduce))
    && (forall p :: 0 <= p < n ==> |s.mem[p]| == |s.init[p]| && |s.tmp[p]| == s.nreduce)
    && (forall p :: 0 <= p < n ==> s.src + s.nreduce <= |s.init[p]| && s.tgt + s.nreduce <= |s.init[p]|)
  }

  ghost predicate Initial(s: State) {
    Shape(s) && s.mem == s.init && B.Start(s.calls) && forall p :: 0 <= p < |s.mem| ==> s.pc[p] == Init
  }

  ghost function Source(s: State, p: nat): seq<int>
    requires Shape(s) && p < |s.mem|
  {
    Slice(s.mem[p], s.src, s.nreduce)
  }

  /** write_to of PE p, read and overwritten. */
  ghost function Area(s: State, p: nat): seq<int>
    requires Shape(s) && p < |s.mem|
  {
    if s.overlap then s.tmp[p] else Slice(s.mem[p], s.tgt, s.nreduce)
  }

  ghost function SetArea(s: State, p: nat, v: seq<int>): (t: State)
    requires Shape(s) && p < |s.mem| && |v| == s.nreduce
    ensures Shape(t) && |t.mem| == |s.mem| && Area(t, p) == v
  {
    if s.overlap then s.(tmp := s.tmp[p := v]) else s.(mem := s.mem[p := Overwrite(s.mem[p], s.tgt, v)])
  }

  ghost predicate Enabled(s: State, p: nat)
    requires Shape(s)
  {
    p < |s.mem| && s.pc[p] != Done
    && (s.pc[p].Bar1? || s.pc[p].Bar2? ==> B.MayLeave(s.calls, p))
    && (s.pc[p].Gather? ==> s.pc[p].ti <= s.nreduce)
  }

  ghost function EnterCall(s: State, p: nat): B.Calls requires Shape(s) && p < |s.mem| {
    s.calls.(entered := s.calls.entered[p := s.calls.entered[p] + 1])
  }
  ghost function LeaveCall(s: State, p: nat): B.Calls requires Shape(s) && p < |s.mem| {
    s.calls.(left := s.calls.left[p := s.calls.left[p] + 1])
  }

  /** Fold a chunk that was read from another PE into write_to, from element ti on. */
  ghost function FoldIn(op: (int, int) -> int, area: seq<int>, chunk: seq<int>, ti: nat): seq<int>
    requires ti + |chunk| <= |area|
  {
    seq(|area|, j requires 0 <= j < |area| => if ti <= j < ti + |chunk| then op(area[j], chunk[j - ti]) else area[j])
  }

  ghost function Apply(s: State, p: nat): (t: State)
    requires Shape(s) && Enabled(s, p)
    ensures Shape(t)
  {
    match s.pc[p]
    case Init => SetArea(s, p, Source(s, p)).(pc := s.pc[p := Bar1], calls := EnterCall(s, p))
    case Bar1 => s.(pc := s.pc[p := Gather(0, 0)], calls := LeaveCall(s, p))
    case Gather(i, ti) =>
      if i >= |s.mem| then s.(pc := s.pc[p := Bar2], calls := EnterCall(s, p))
      else if i == p then s.(pc := s.pc[p := Gather(i + 1, 0)])
      else
        var len := if ti + s.w <= s.nreduce then s.w else s.nreduce - ti;
        var chunk := Slice(s.mem[i], s.src + ti, len);
        SetArea(s, p, FoldIn(s.op, Area(s, p), chunk, ti))
        .(pc := s.pc[p := if len == s.w then Gather(i, ti + len) else Gather(i + 1, 0)])
    case Bar2 => s.(pc := s.pc[p := Finish], calls := LeaveCall(s, p))
    case Finish =>
      s.(pc := s.pc[p := Done], mem := if s.overlap then s.mem[p := Overwrite(s.mem[p], s.tgt, s.tmp[p])] else s.mem)
  }

  ghost predicate Next(s: State, t: State) {
    Shape(s) && exists p: nat :: Enabled(s, p) && t == Apply(s, p)
  }

  // ------------------------------------------------------------ invariant

  /** The sources the PEs called the reduction with. */
  ghost function Sources(s: State): (r: seq<seq<int>>)
    requires Shape(s)
    ensures |r| == |s.mem| && forall p :: 0 <= p < |r| ==> |r[p]| == s.nreduce
  {
    SourcesOf(s.init, s.src, s.nreduce)
  }

  ghost function SourcesOf(init: seq<seq<int>>, src: nat, nreduce: nat): (r: seq<seq<int>>)
    requires forall p :: 0 <= p < |init| ==> src + nreduce <= |init[p]|
    ensures |r| == |init| && forall p :: 0 <= p < |r| ==> r[p] == Slice(init[p], src, nreduce)
  {
    seq(|init|, p requires 0 <= p < |init| => Slice(init[p], src, nreduce))
  }

  ghost predicate Folded(s: State, p: nat, area: seq<int>)
    requires Shape(s) && p < |s.mem|
  {
    |area| == s.nreduce && forall j :: 0 <= j < s.nreduce ==> area[j] == Fold(s.op, Sources(s), p, |s.mem|, j)
  }

  ghost predicate PeOk(s: State, p: int)
    requires Shape(s)
  {
    0 <= p < |s.mem| ==>
      && s.calls.entered[p] == (match s.pc[p] case Init => 0 case Bar1 => 1 case Gather(_, _) => 1 case _ => 2)
      && s.calls.left[p] ==
         (match s.pc[p] case Init => 0 case Bar1 => 0 case Gather(_, _) => 1 case Bar2 => 1 case _ => 2)
      && (!s.overlap || s.pc[p] != Done ==> Source(s, p) == Sources(s)[p])
      && match s.pc[p]
         case Init => true
         case Bar1 => Area(s, p) == Sources(s)[p]
         case Gather(i, ti) =>
           if i < |s.mem| then Half(s.op, Sources(s), p, i, s.nreduce, ti, Area(s, p)) && (i == p ==> ti == 0)
           else i == |s.mem| && ti <= s.nreduce && Folded(s, p, Area(s, p))
         case Bar2 => Folded(s, p, Area(s, p))
         case Finish => Folded(s, p, Area(s, p))
         case Done => Folded(s, p, Slice(s.mem[p], s.tgt, s.nreduce))
  }

  ghost predicate Inv(s: State) {
    Shape(s) && B.Good(s.calls) && forall p {:trigger PeOk(s, p)} :: PeOk(s, p)
  }

  /** What a step of p does not touch. */
  lemma Framed(s: State, p: nat)
    requires Shape(s) && Enabled(s, p)
    ensures var t := Apply(s, p);
            && t.init == s.init && t.op == s.op && t.nreduce == s.nreduce && t.src == s.src && t.tgt == s.tgt
            && t.overlap == s.overlap
            && |t.mem| == |s.mem|
            && (forall q :: 0 <= q < |s.mem| && q != p ==>
                  t.mem[q] == s.mem[q] && t.tmp[q] == s.tmp[q] && t.pc[q] == s.pc[q]
                  && t.calls.entered[q] == s.calls.entered[q] && t.calls.left[q] == s.calls.left[q])
  {
  }

  /** A step of p leaves every other PE as it was. */
  lemma OthersKeep(s: State, p: nat, q: nat)
    requires Inv(s) && Enabled(s, p) && q < |s.mem| && q != p
    ensures PeOk(Apply(s, p), q)
  {
    Framed(s, p);
    assert PeOk(s, q);
    SamePe(s, Apply(s, p), q);
  }

  lemma SamePe(s: State, t: State, q: nat)
    requires Shape(s) && Shape(t) && |t.mem| == |s.mem| && q < |s.mem| && PeOk(s, q)
    requires t.init == s.init && t.op == s.op && t.nreduce == s.nreduce && t.src == s.src && t.tgt == s.tgt
             && t.overlap == s.overlap
    requires t.mem[q] == s.mem[q] && t.tmp[q] == s.tmp[q] && t.pc[q] == s.pc[q]
    requires t.calls.entered[q] == s.calls.entered[q] && t.calls.left[q] == s.calls.left[q]
    ensures PeOk(t, q)
  {
  }

  lemma KeepInit(s: State, p: nat)
    requires Inv(s) && Enabled(s, p) && s.pc[p].Init?
    ensures PeOk(Apply(s, p), p)
  {
    var t := Apply(s, p);
    assert PeOk(s, p) && Sources(t) == Sources(s);
    SourceUntouched(s, p, Source(s, p));
  }

  /** Writing write_to never touches the source. */
  lemma SourceUntouched(s: State, p: nat, v: seq<int>)
    requires Shape(s) && p < |s.mem| && |v| == s.nreduce
    ensures Source(SetArea(s, p, v), p) == Source(s, p)
  {
    if !s.overlap {
      var m := Overwrite(s.mem[p], s.tgt, v);
      assert Slice(m, s.src, s.nreduce) == Slice(s.mem[p], s.src, s.nreduce);
    }
  }

  lemma KeepBarriers(s: State, p: nat)
    requires Inv(s) && Enabled(s, p) && (s.pc[p].Bar1? || s.pc[p].Bar2?)
    ensures PeOk(Apply(s, p), p)
  {
    assert PeOk(s, p) && Sources(Apply(s, p)) == Sources(s);
  }

  /** While p gathers, nobody has finished: every source is still the one the call started with. */
  lemma SourcesIntact(s: State, p: nat, i: nat)
    requires Inv(s) && p < |s.mem| && i < |s.mem| && s.pc[p].Gather?
    ensures Source(s, i) == Sources(s)[i]
  {
    assert PeOk(s, p) && PeOk(s, i);
  }

  lemma KeepPull(s: State, p: nat)
    requires Inv(s) && Enabled(s, p) && s.pc[p].Gather? && s.pc[p].i < |s.mem| && s.pc[p].i != p
    ensures PeOk(Apply(s, p), p)
  {
    var i, ti := s.pc[p].i, s.pc[p].ti;
    var len := if ti + s.w <= s.nreduce then s.w else s.nreduce - ti;
    var chunk := Slice(s.mem[i], s.src + ti, len);
    assert PeOk(s, p);
    SourcesIntact(s, p, i);
    PartOfSource(s, i, ti, len);
    PullFolds(s.op, Sources(s), p, i, s.nreduce, ti, Area(s, p), chunk);
    PulledPe(s, p, FoldIn(s.op, Area(s, p), chunk, ti), len);
  }

  lemma PartOfSource(s: State, i: nat, ti: nat, len: nat)
    requires Shape(s) && i < |s.mem| && ti + len <= s.nreduce && Source(s, i) == Sources(s)[i]
    ensures forall j :: ti <= j < ti + len ==> Slice(s.mem[i], s.src + ti, len)[j - ti] == Sources(s)[i][j]
  {
    forall j | ti <= j < ti + len ensures Slice(s.mem[i], s.src + ti, len)[j - ti] == Sources(s)[i][j] {
      assert Source(s, i)[j] == s.mem[i][s.src + j];
    }
  }

  lemma PulledPe(s: State, p: nat, area: seq<int>, len: nat)
    requires Inv(s) && Enabled(s, p) && s.pc[p].Gather? && s.pc[p].i < |s.mem| && s.pc[p].i != p
    requires var i, ti := s.pc[p].i, s.pc[p].ti;
             && len == (if ti + s.w <= s.nreduce then s.w else s.nreduce - ti)
             && area == FoldIn(s.op, Area(s, p), Slice(s.mem[i], s.src + ti, len), ti)
             && Half(s.op, Sources(s), p, i, s.nreduce, ti + len, area)
    ensures PeOk(Apply(s, p), p)
  {
    assert PeOk(s, p);
    Framed(s, p);
    PulledState(s, p, area, len);
    Advance(s, p, Apply(s, p), area, len);
  }

  /** What a pull changes. */
  lemma PulledState(s: State, p: nat, area: seq<int>, len: nat)
    requires Shape(s) && Enabled(s, p) && s.pc[p].Gather? && s.pc[p].i < |s.mem| && s.pc[p].i != p
    requires var i, ti := s.pc[p].i, s.pc[p].ti;
             && len == (if ti + s.w <= s.nreduce then s.w else s.nreduce - ti)
             && area == FoldIn(s.op, Area(s, p), Slice(s.mem[i], s.src + ti, len), ti)
    ensures var t := Apply(s, p);
            && Area(t, p) == area && Source(t, p) == Source(s, p) && t.calls == s.calls
            && t.pc[p] == if len == s.w then Gather(s.pc[p].i, s.pc[p].ti + len) else Gather(s.pc[p].i + 1, 0)
  {
    SourceUntouched(s, p, area);
    SameArea(SetArea(s, p, area), Apply(s, p), p);
  }

  lemma SameArea(s: State, t: State, p: nat)
    requires Shape(s) && Shape(t) && p < |s.mem|
    requires t == s.(pc := t.pc)
    ensures Area(t, p) == Area(s, p) && Source(t, p) == Source(s, p)
  {
  }

  lemma Advance(s: State, p: nat, t: State, area: seq<int>, len: nat)
    requires Shape(s) && Shape(t) && p < |s.mem| == |t.mem| && PeOk(s, p)
    requires t.init == s.init && t.op == s.op && t.nreduce == s.nreduce && t.src == s.src && t.overlap == s.overlap
             && t.calls == s.calls
    requires s.pc[p].Gather? && s.pc[p].i < |s.mem| && s.pc[p].i != p
    requires Area(t, p) == area && Source(t, p) == Source(s, p)
    requires t.pc[p] == if len == s.w then Gather(s.pc[p].i, s.pc[p].ti + len) else Gather(s.pc[p].i + 1, 0)
    requires len == s.w || s.pc[p].ti + len == s.nreduce
    requires Half(s.op, Sources(s), p, s.pc[p].i, s.nreduce, s.pc[p].ti + len, area) && |area| == s.nreduce
    ensures PeOk(t, p)
  {
  }

  lemma PullFolds(op: (int, int) -> int, sources: seq<seq<int>>, me: nat, i: nat, nreduce: nat, ti: nat,
                  area: seq<int>, chunk: seq<int>)
    requires Half(op, sources, me, i, nreduce, ti, area) && i != me && |area| == nreduce && ti + |chunk| <= nreduce
    requires forall j :: ti <= j < ti + |chunk| ==> chunk[j - ti] == sources[i][j]
    ensures Half(op, sources, me, i, nreduce, ti + |chunk|, FoldIn(op, area, chunk, ti))
  {
  }

  lemma KeepSkipOrEnter(s: State, p: nat)
    requires Inv(s) && Enabled(s, p) && s.pc[p].Gather? && (s.pc[p].i >= |s.mem| || s.pc[p].i == p)
    ensures PeOk(Apply(s, p), p)
  {
    assert PeOk(s, p) && Sources(Apply(s, p)) == Sources(s);
  }

  lemma KeepFinish(s: State, p: nat)
    requires Inv(s) && Enabled(s, p) && s.pc[p].Finish?
    ensures PeOk(Apply(s, p), p)
  {
    assert PeOk(s, p) && Sources(Apply(s, p)) == Sources(s);
  }

  /** The barrier counters move only by steps of the barrier specification. */
  lemma StepFollowsBarrier(s: State, p: nat)
    requires Inv(s) && Enabled(s, p)
    ensures Apply(s, p).calls == s.calls || B.Step(s.calls, Apply(s, p).calls)
  {
    assert PeOk(s, p);
    var t := Apply(s, p);
    if s.pc[p].Init? || (s.pc[p].Gather? && s.pc[p].i >= |s.mem|) {
      assert B.Enters(s.calls, t.calls, p);
    } else if s.pc[p].Bar1? || s.pc[p].Bar2? {
      assert B.Leaves(s.calls, t.calls, p);
    }
  }

  lemma GoodStep(c: B.Calls, d: B.Calls)
    requires B.Good(c) && B.Step(c, d)
    ensures B.Good(d)
  {
    var p: nat :| B.Enters(c, d, p) || B.Leaves(c, d, p);
  }

  lemma StepKeepsInv(s: State, t: State)
    requires Inv(s) && Next(s, t)
    ensures Inv(t)
  {
    var p: nat :| Enabled(s, p) && t == Apply(s, p);
    StepFollowsBarrier(s, p);
    if t.calls != s.calls { GoodStep(s.calls, t.calls); }
    forall q ensures PeOk(t, q) {
      if q == p {
        if s.pc[p].Init? { KeepInit(s, p); }
        else if s.pc[p].Bar1? || s.pc[p].Bar2? { KeepBarriers(s, p); }
        else if s.pc[p].Finish? { KeepFinish(s, p); }
        else if s.pc[p].i >= |s.mem| || s.pc[p].i == p { KeepSkipOrEnter(s, p); }
        else { KeepPull(s, p); }
      } else if 0 <= q < |s.mem| {
        OthersKeep(s, p, q);
      }
    }
  }

  ghost predicate Reached(s: State) { Reachable(Initial, Next, s) }

  lemma ReachedInv(s: State)
    requires Reached(s)
    ensures Inv(s)
  {
    forall t | Initial(t) ensures Inv(t) { forall p ensures PeOk(t, p) {} }
    forall t, u | Inv(t) && Next(t, u) ensures Inv(u) { StepKeepsInv(t, u); }
    ReachableInvariant(Initial, Next, Inv, s);
  }

  ghost function CallsOf(s: State): B.Calls { s.calls }

  /** The calls and returns of a run are one history the barrier specification allows. */
  lemma CallsFollowBarrier(s: State)
    requires Reached(s)
    ensures B.Allowed(s.calls)
  {
    var run :| IsRun(Initial, Next, run) && run[|run| - 1] == s;
    forall t | Initial(t) ensures Inv(t) && B.Start(CallsOf(t)) { forall p ensures PeOk(t, p) {} }
    forall t, u | Inv(t) && Next(t, u) ensures Inv(u) && (CallsOf(u) == CallsOf(t) || B.Step(CallsOf(t), CallsOf(u))) {
      StepKeepsInv(t, u);
      var p: nat :| Enabled(t, p) && u == Apply(t, p);
      StepFollowsBarrier(t, p);
    }
    B.RefinesBarrier(Initial, Next, Inv, CallsOf, run);
  }

  // -------------------------------------------------------------- results

  /** When a PE is done its target holds, for every element, the fold that starts at its own source and
      goes on through the other PEs in order, whatever the interleaving and the chunk size, even if
      source and target overlap. */
  lemma ReductionIsFold(s: State, p: nat, j: nat)
    requires Reached(s) && Shape(s) && p < |s.mem| && s.pc[p] == Done && j < s.nreduce
    ensures s.mem[p][s.tgt + j] == Fold(s.op, Sources(s), p, |s.mem|, j)
    ensures var c := Initially(s, s.src + j); s.mem[p][s.tgt + j] == LeftFold(s.op, c[p], c[..p] + c[p + 1..])
  {
    DoneHasFold(s, p, j);
    InitialFolds(s, p, j);
  }

  lemma DoneHasFold(s: State, p: nat, j: nat)
    requires Reached(s) && Shape(s) && p < |s.mem| && s.pc[p] == Done && j < s.nreduce
    ensures s.mem[p][s.tgt + j] == Fold(s.op, Sources(s), p, |s.mem|, j)
  {
    ReachedInv(s);
    assert PeOk(s, p);
    assert Slice(s.mem[p], s.tgt, s.nreduce)[j] == s.mem[p][s.tgt + j];
  }

  lemma InitialFolds(s: State, p: nat, j: nat)
    requires Shape(s) && p < |s.mem| && j < s.nreduce
    ensures var c := Initially(s, s.src + j);
            && Fold(s.op, Sources(s), p, |s.mem|, j) == LeftFold(s.op, c[p], c[..p] + c[p + 1..])
            && FoldAll(s.op, Sources(s), |s.mem|, j) == LeftFold(s.op, c[0], c[1..])
  {
    WholeFold(s.op, Sources(s), p, j);
    InitialColumn(s, j);
  }

  lemma InitialColumn(s: State, j: nat)
    requires Shape(s) && j < s.nreduce
    ensures Column(Sources(s), j) == Initially(s, s.src + j)
  {
  }

  /** What all PEs' memory held at this place when the reduction was called. */
  ghost function Initially(s: State, at: nat): (c: seq<int>)
    requires Shape(s) && s.src <= at < s.src + s.nreduce
    ensures |c| == |s.mem|
  {
    seq(|s.mem|, p requires 0 <= p < |s.mem| => s.init[p][at])
  }

  /** Memory of PE p outside its target is as it was at the call. */
  ghost predicate Outside(s: State, p: int)
    requires Shape(s)
  {
    0 <= p < |s.mem| ==>
      forall k :: 0 <= k < |s.mem[p]| && !(s.tgt <= k < s.tgt + s.nreduce) ==> s.mem[p][k] == s.init[p][k]
  }

  ghost predicate AllOutside(s: State) {
    Shape(s) && forall p {:trigger Outside(s, p)} :: Outside(s, p)
  }

  lemma StepStaysInside(s: State, t: State)
    requires AllOutside(s) && Next(s, t)
    ensures AllOutside(t)
  {
    var p: nat :| Enabled(s, p) && t == Apply(s, p);
    forall q ensures Outside(t, q) {
      assert Outside(s, q);
      MemStays(s, p, q);
    }
  }

  lemma MemStays(s: State, p: nat, q: int)
    requires Shape(s) && Enabled(s, p) && Outside(s, q)
    ensures Outside(Apply(s, p), q)
  {
  }

  /** At every moment of a run, before and after it returns, a reduction has changed nothing but its targets. */
  lemma OnlyTargetsChange(s: State, p: nat, k: nat)
    requires Reached(s) && Shape(s) && p < |s.mem| && k < |s.mem[p]| && !(s.tgt <= k < s.tgt + s.nreduce)
    ensures s.mem[p][k] == s.init[p][k]
  {
    forall t | Initial(t) ensures AllOutside(t) {}
    forall t, u | AllOutside(t) && Next(t, u) ensures AllOutside(u) { StepStaysInside(t, u); }
    ReachableInvariant(Initial, Next, AllOutside, s);
    assert Outside(s, p);
  }

  /** For an associative and commutative operator all PEs get the plain fold over the active set. */
  lemma AllPesAgree(s: State, p: nat, j: nat)
    requires Reached(s) && Shape(s) && p < |s.mem| && s.pc[p] == Done && j < s.nreduce
    requires AssociativeCommutative(s.op)
    ensures s.mem[p][s.tgt + j] == FoldAll(s.op, Sources(s), |s.mem|, j)
    ensures var c := Initially(s, s.src + j); s.mem[p][s.tgt + j] == LeftFold(s.op, c[0], c[1..])
  {
    ReductionIsFold(s, p, j);
    FoldIsFoldAll(s.op, Sources(s), p, |s.mem|, j);
    InitialFolds(s, p, j);
  }

  /** Until the last PE has called the second barrier every source is what it was at the call. */
  lemma SourcesIntactUntilSecondBarrier(s: State, q: nat, p: nat)
    requires Reached(s) && Shape(s) && p < |s.mem| && q < |s.mem| && s.calls.entered[q] < 2
    ensures Source(s, p) == Sources(s)[p]
  {
    ReachedInv(s);
    assert PeOk(s, p) && PeOk(s, q);
  }

  /** Nobody gets stuck: while some PE is not done, some PE can move. */
  lemma NoDeadlock(s: State, p: nat)
    requires Reached(s) && Shape(s) && p < |s.mem| && s.pc[p] != Done
    ensures exists t :: Next(s, t)
  {
    ReachedInv(s);
    var q := B.Slowest(s.calls, |s.mem|);
    assert PeOk(s, q) && PeOk(s, p);
    assert Enabled(s, q) || Enabled(s, p);
    if Enabled(s, q) { assert Next(s, Apply(s, q)); } else { assert Next(s, Apply(s, p)); }
  }

  /** What a PE still has to do: no PE needs more than nreduce + 2 pulls from another. */
  function Weight(n: nat, nreduce: nat, pc: Pc): nat {
    match pc
    case Init => Pulls(n, nreduce) + 5
    case Bar1 => Pulls(n, nreduce) + 4
    case Gather(i, ti) => if i < n && ti <= Pulls(n - i, nreduce) then Pulls(n - i, nreduce) - ti + 3 else 3
    case Bar2 => 2
    case Finish => 1
    case Done => 0
  }

  function Pulls(pes: nat, nreduce: nat): nat { pes * (nreduce + 2) }

  lemma PullsOfOne(pes: nat, nreduce: nat)
    requires pes > 0
    ensures Pulls(pes, nreduce) == Pulls(pes - 1, nreduce) + nreduce + 2
  {
  }

  ghost function Weights(s: State): seq<nat>
    requires Shape(s)
  {
    seq(|s.mem|, p requires 0 <= p < |s.mem| && Shape(s) => Weight(|s.mem|, s.nreduce, s.pc[p]))
  }

  ghost function Remaining(s: State): nat {
    if Shape(s) then Sum(Weights(s)) else 0
  }

  lemma RunLowers(s: State, p: nat)
    requires Shape(s) && Enabled(s, p)
    ensures Weight(|s.mem|, s.nreduce, Apply(s, p).pc[p]) < Weight(|s.mem|, s.nreduce, s.pc[p])
  {
    if s.pc[p].Gather? && s.pc[p].i < |s.mem| { PullsOfOne(|s.mem| - s.pc[p].i, s.nreduce); }
  }

  lemma OnlyOwnPc(s: State, p: nat)
    requires Shape(s) && Enabled(s, p)
    ensures var t := Apply(s, p); |t.mem| == |s.mem| && t.nreduce == s.nreduce && t.pc == s.pc[p := t.pc[p]]
  {
  }

  lemma StepLowers(s: State, t: State)
    requires Next(s, t)
    ensures Remaining(t) < Remaining(s)
  {
    var p: nat :| Enabled(s, p) && t == Apply(s, p);
    OnlyOwnPc(s, p);
    RunLowers(s, p);
    var w := Weight(|s.mem|, s.nreduce, t.pc[p]);
    assert Weights(t) == Weights(s)[p := w];
    SumUpdate(Weights(s), p, w);
  }

  /** PE p is done and its target holds its fold. */
  ghost predicate Reduced(s: State, p: nat)
    requires Shape(s) && p < |s.mem|
  {
    && s.pc[p] == Done
    && (forall j :: 0 <= j < s.nreduce ==> s.mem[p][s.tgt + j] == Fold(s.op, Sources(s), p, |s.mem|, j))
    && forall k :: 0 <= k < |s.mem[p]| && !(s.tgt <= k < s.tgt + s.nreduce) ==> s.mem[p][k] == s.init[p][k]
  }

  /** Every schedule ends after boundedly many steps, with every PE done and its fold in its target. */
  lemma Completes(path: seq<State>)
    requires IsPath(Next, path) && Reached(path[0])
    ensures |path| - 1 <= Remaining(path[0])
    ensures var s := path[|path| - 1];
            Shape(s) && ((forall t :: !Next(s, t)) ==> forall p: nat :: p < |s.mem| ==> Reduced(s, p))
  {
    forall s, t {:trigger Next(s, t)} | Reached(s) && Next(s, t) ensures Reached(t) && Remaining(t) < Remaining(s) {
      StepLowers(s, t);
      ReachableStep(Initial, Next, s, t);
    }
    MeasureBoundsPath(Next, Reached, Remaining, path);
    var s := path[|path| - 1];
    ReachedInv(s);
    if forall t :: !Next(s, t) {
      forall p: nat | p < |s.mem| ensures Reduced(s, p) { EndsReduced(s, p); }
    }
  }

  lemma EndsReduced(s: State, p: nat)
    requires Reached(s) && Shape(s) && p < |s.mem| && forall t :: !Next(s, t)
    ensures Reduced(s, p)
  {
    if s.pc[p] != Done { NoDeadlock(s, p); }
    forall j | 0 <= j < s.nreduce ensures s.mem[p][s.tgt + j] == Fold(s.op, Sources(s), p, |s.mem|, j) {
      ReductionIsFold(s, p, j);
    }
    forall k | 0 <= k < |s.mem[p]| && !(s.tgt <= k < s.tgt + s.nreduce) ensures s.mem[p][k] == s.init[p][k] {
      OnlyTargetsChange(s, p, k);
    }
  }
}
