/** fcollect and collect statement by statement, with any number of steps of the other PEs and of the network
    between every two accesses. */
module CollectCode {
  import opened Runs
  import opened Trees
  import opened Bits
  import opened Collect
  import opened AnyBarrier
  import L = BarrierLinear
  import T = BarrierTree
  import D = BarrierDissem
  import M = CollectRun
  import R = CollectReturns

  /** The barrier when PE p has just called it. */
  function Calling(b: Bar, p: nat): (r: Bar)
    requires AnyBarrier.Shape(b) && p < Size(b) && IsOut(b, p)
    ensures r == AnyBarrier.Apply(b, CallOf(b, p))
  {
    match b
    case Linear(l) => Linear(l.(pc := l.pc[p := L.Begin], entered := l.entered[p := l.entered[p] + 1]))
    case OnTree(t) => OnTree(t.(pc := t.pc[p := T.WaitKids], entered := t.entered[p := t.entered[p] + 1]))
    case Dissem(d) => Dissem(d.(pc := d.pc[p := D.Poke(0)], entered := d.entered[p := d.entered[p] + 1]))
  }

  /** The statement of the send loop, and its end. */
  lemma PutStep(t: M.State, p: nat, i: nat, off: int)
    requires M.Fits(t) && p < |t.c.sources| && i < |t.c.sources| && t.c.pc[p] == Send(i, off)
    ensures M.Enabled(t, M.Own(Run(p)))
    ensures M.Apply(t, M.Own(Run(p))) == WithPut(t, p, i, off)
  {
  }

  ghost function WithPut(t: M.State, p: nat, i: nat, off: int): M.State
    requires M.Fits(t) && p < |t.c.sources|
  {
    t.(c := t.c.(flight := t.c.flight + multiset{Slice(p, i, off, t.c.sources[p])},
                 pc := t.c.pc[p := Send(i + 1, off)]))
  }

  lemma EndStep(t: M.State, p: nat)
    requires M.Fits(t) && p < |t.c.sources| && t.c.pc[p].Send? && t.c.pc[p].i == |t.c.sources|
    ensures M.Enabled(t, M.Own(Run(p)))
    ensures M.Apply(t, M.Own(Run(p))) == t.(c := t.c.(pc := t.c.pc[p := if t.c.fixed then Quiet else Reset]))
  {
  }

  /** Targets and pSync cells of all PEs, puts under way, and the barrier that closes the call, whose statements
      are those of BarrierCode.  The ghost `s` is the machine's state, of which this is the memory. */
  class Memory {
    const fixed: bool
    const sources: seq<seq<int>>
    var target: seq<seq<int>>
    var cell: seq<int>
    var flight: multiset<Put>
    var bar: Bar
    ghost var s: M.State

    ghost predicate IsMemoryOf(t: M.State)
      reads this
    {
      && t.c.fixed == fixed && t.c.sources == sources && t.c.target == target && t.c.cell == cell
      && t.c.flight == flight && t.bar == bar
    }

    ghost predicate Valid()
      reads this
    {
      M.Fits(s) && M.Reached(s) && IsMemoryOf(s)
    }

    constructor (fixed: bool, sources: seq<seq<int>>, target: seq<seq<int>>, bar: Bar)
      requires |sources| == |target| > 0 && AnyBarrier.Initial(bar) && Size(bar) == |sources|
      requires forall p :: 0 <= p < |target| ==> |target[p]| >= Offset(sources, |sources|)
      ensures Valid() && M.Initial(s) && this.fixed == fixed && this.sources == sources && this.target == target
      ensures this.bar == bar
    {
      var n := |sources|;
      this.fixed, this.sources, this.target, this.bar := fixed, sources, target, bar;
      cell, flight := seq(n, _ => 0), multiset{};
      s := M.State(State(fixed, sources, target, target, seq(n, _ => 0),
                         seq(n, p requires 0 <= p < n => if fixed then Send(0, Offset(sources, p)) else Start),
                         multiset{}, seq(n, _ => {}), Calls(bar)),
                   bar, {});
      new;
      ReachableInit(M.Initial, M.Next, s);
    }

    /** Any number of steps of other PEs, deliveries, and steps inside the closing barrier may happen here;
        p itself has not moved, unless it is in that barrier. */
    method Others(ghost p: nat)
      requires Valid() && p < |sources|
      modifies this
      ensures Valid() && (s.c.pc[p] == old(s.c.pc[p]) || (old(s.c.pc[p]) == Closing && s.c.pc[p] == Done))
    {
    }

    /** The access just made was the step e. */
    ghost method Step(e: M.Event)
      requires M.Fits(s) && M.Reached(s) && M.Enabled(s, e) && IsMemoryOf(M.Apply(s, e))
      modifies `s
      ensures Valid() && s == M.Apply(old(s), e)
    {
      assert M.Next(s, M.Apply(s, e));
      ReachableStep(M.Initial, M.Next, s, M.Apply(s, e));
      s := M.Apply(s, e);
    }

    /** shmemc_fcollect on the PE at index p of the active set. */
    method FixedCollect(p: nat, nelems: nat, start: nat, logStride: nat, patience: nat) returns (done: bool)
      requires Valid() && fixed && p < |sources| && s.c.pc[p] == Send(0, Offset(sources, p))
      requires forall u :: 0 <= u < |sources| ==> |sources[u]| == nelems
      modifies this
      ensures Valid()
      ensures if done then s.c.pc[p] == Done && Collected(s.c, p) else AtTheEnd(p)
    {
      var rank := start + p * Exp2(logStride);
      var vpe := IndexOf(start, logStride, rank);
      var tidx := nelems * vpe;
      IndexRoundTrip(start, logStride, p);
      EqualOffsets(sources, nelems, p);
      SendEverywhere(p, tidx);
      done := Barrier(p, patience);
      if done { M.ReturnedIsConcatenation(s, p); }
    }

    /** With dissemination a hit can lead to a wrong target, unless there is nothing to collect or nobody else. */
    ghost predicate MustBeRight()
      reads this
    {
      !bar.Dissem? || s.hit == {} || |sources| == 1 || Offset(sources, |sources|) == 0
    }

    /** shmemc_collect on the PE at index p of the active set. */
    method VarCollect(p: nat, patience: nat) returns (done: bool)
      requires Valid() && !fixed && p < |sources| && s.c.pc[p] == Start
      modifies this
      ensures Valid()
      ensures done ==> s.c.pc[p] == Done && (MustBeRight() ==> Collected(s.c, p))
      ensures !done ==> (s.c.pc[p] == Start && p != 0 && cell[p] == 0) || AtTheEnd(p)
    {
      done := Begin(p, patience);
      if !done { return; }
      Others(p);
      ForwardSum(p);
      Others(p);
      var tidx := ReadOffset(p);
      Others(p);
      SendEverywhere(p, tidx);
      Others(p);
      ClearCell(p);
      Others(p);
      done := Barrier(p, patience);
      if done && MustBeRight() { R.ReturnedRight(s, p); }
    }

    /** The first PE clears its cell; every other one looks until its own is not zero. */
    method Begin(p: nat, patience: nat) returns (seen: bool)
      requires Valid() && p < |sources| && s.c.pc[p] == Start
      modifies this
      ensures Valid() && if seen then s.c.pc[p] == Forward else s.c.pc[p] == Start && p != 0 && cell[p] == 0
    {
      if p == 0 {
        cell := cell[p := 0];
        Step(M.Own(Run(p)));
      } else {
        var looks := 0;
        while cell[p] == 0
          invariant Valid() && s.c.pc[p] == Start
          decreases patience - looks
        {
          if looks >= patience { return false; }
          looks := looks + 1;
          Others(p);
        }
        Step(M.Own(Run(p)));
      }
      seen := true;
    }

    /** The right neighbour, if there is one, gets the sum so far. */
    method ForwardSum(p: nat)
      requires Valid() && p < |sources| && s.c.pc[p] == Forward
      modifies this
      ensures Valid() && s.c.pc[p] == ReadOff
    {
      if p < |sources| - 1 {
        var nextOff := cell[p] + |sources[p]|;
        flight := flight + multiset{Wave(p, p + 1, nextOff)};
      }
      Step(M.Own(Run(p)));
    }

    method ReadOffset(p: nat) returns (tidx: int)
      requires Valid() && p < |sources| && s.c.pc[p] == ReadOff
      modifies this
      ensures Valid() && s.c.pc[p] == Send(0, tidx)
    {
      tidx := cell[p];
      Step(M.Own(Run(p)));
    }

    /** The slice goes to everybody, in the order of the active set. */
    method SendEverywhere(p: nat, tidx: int)
      requires Valid() && p < |sources| && s.c.pc[p] == Send(0, tidx)
      modifies this
      ensures Valid() && s.c.pc[p] == if fixed then Quiet else Reset
    {
      for i := 0 to |sources|
        invariant Valid() && s.c.pc[p] == Send(i, tidx)
      {
        PutSlice(p, i, tidx);
        Others(p);
      }
      AllPut(p);
    }

    method AllPut(p: nat)
      requires Valid() && p < |sources| && s.c.pc[p].Send? && s.c.pc[p].i == |sources|
      modifies this
      ensures Valid() && s.c.pc[p] == if fixed then Quiet else Reset
    {
      EndStep(s, p);
      Step(M.Own(Run(p)));
    }

    method PutSlice(p: nat, i: nat, tidx: int)
      requires Valid() && p < |sources| && i < |sources| && s.c.pc[p] == Send(i, tidx)
      modifies this
      ensures Valid() && s.c.pc[p] == Send(i + 1, tidx)
    {
      flight := flight + multiset{Slice(p, i, tidx, sources[p])};
      PutStep(s, p, i, tidx);
      Step(M.Own(Run(p)));
    }

    method ClearCell(p: nat)
      requires Valid() && p < |sources| && s.c.pc[p] == Reset
      modifies this
      ensures Valid() && s.c.pc[p] == Quiet && cell[p] == 0
    {
      cell := cell[p := 0];
      Step(M.Own(Run(p)));
    }

    /** Where a call that gave up at its end is: a put of p is under way, or the barrier still holds p. */
    ghost predicate AtTheEnd(p: nat)
      requires Valid() && p < |sources|
      reads this
    {
      || (s.c.pc[p] == Quiet && exists m :: m in flight && m.src == p)
      || (s.c.pc[p] == Closing && !IsOut(bar, p))
    }

    /** The puts are waited for, then comes the barrier. */
    method Barrier(p: nat, patience: nat) returns (done: bool)
      requires Valid() && p < |sources| && s.c.pc[p] == Quiet
      modifies this
      ensures Valid() && if done then s.c.pc[p] == Done else AtTheEnd(p)
    {
      done := Drain(p, patience);
      if !done { return; }
      var looks := 0;
      while !IsOut(bar, p)
        invariant Valid() && (s.c.pc[p] == Closing || s.c.pc[p] == Done)
        decreases patience - looks
      {
        if looks >= patience { OutIsDone(p); return false; }
        looks := looks + 1;
        Others(p);
      }
      OutIsDone(p);
      done := true;
    }

    /** A PE that has called the barrier is out of it exactly when it has returned from collect. */
    lemma OutIsDone(p: nat)
      requires Valid() && p < |sources| && (s.c.pc[p] == Closing || s.c.pc[p] == Done)
      ensures IsOut(bar, p) <==> s.c.pc[p] == Done
    {
      M.ReachedInv(s);
      assert M.PeFits(s, p);
    }

    method Drain(p: nat, patience: nat) returns (done: bool)
      requires Valid() && p < |sources| && s.c.pc[p] == Quiet
      modifies this
      ensures Valid()
      ensures if done then s.c.pc[p] == Closing else s.c.pc[p] == Quiet && exists m :: m in flight && m.src == p
    {
      var looks := 0;
      while exists m :: m in flight && m.src == p
        invariant Valid() && s.c.pc[p] == Quiet
        decreases patience - looks
      {
        if looks >= patience { return false; }
        looks := looks + 1;
        Others(p);
      }
      MayEnter(p);
      bar := Calling(bar, p);
      Step(M.Enter(p));
      done := true;
    }

    lemma MayEnter(p: nat)
      requires Valid() && p < |sources| && s.c.pc[p] == Quiet && forall m :: m in flight ==> m.src != p
      ensures IsOut(bar, p) && M.Enabled(s, M.Enter(p))
    {
      IsQuiet(s.c, p);
      M.ReachedInv(s);
      assert M.PeFits(s, p);
      M.OutCanCall(bar, p);
    }
  }

  lemma IsQuiet(c: State, p: nat)
    requires Collect.Shape(c) && p < |c.sources| && c.pc[p] == Quiet && forall m :: m in c.flight ==> m.src != p
    ensures Collect.Enabled(c, Run(p))
  {
  }
}
