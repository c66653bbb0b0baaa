/** What a barrier over n PEs promises, called any number of times: nobody leaves its k-th call
    before everybody has made its k-th call.  The three implementations refine this. */
module BarrierSpec {
  import opened Runs

  /** How many calls each PE has made and how many it has returned from. */
  datatype Calls = Calls(entered: seq<nat>, left: seq<nat>)

  ghost predicate Start(c: Calls) {
    && |c.entered| == |c.left| > 0
    && (forall p :: 0 <= p < |c.entered| ==> c.entered[p] == 0)
    && (forall p :: 0 <= p < |c.left| ==> c.left[p] == 0)
  }

  ghost predicate Enters(c: Calls, d: Calls, p: nat) {
    && |c.entered| == |c.left| && p < |c.entered|
    && c.entered[p] == c.left[p]
    && d == c.(entered := c.entered[p := c.entered[p] + 1])
  }

  /** The barrier's guard: p returns from its call only when every PE has made that call. */
  ghost predicate MayLeave(c: Calls, p: nat) {
    && |c.entered| == |c.left| && p < |c.entered|
    && c.entered[p] == c.left[p] + 1
    && (forall q :: 0 <= q < |c.entered| ==> c.entered[q] >= c.entered[p])
  }

  ghost predicate Leaves(c: Calls, d: Calls, p: nat) {
    && MayLeave(c, p)
    && d == c.(left := c.left[p := c.left[p] + 1])
  }

  ghost predicate Step(c: Calls, d: Calls) {
    exists p: nat :: Enters(c, d, p) || Leaves(c, d, p)
  }

  ghost predicate Good(c: Calls) {
    && |c.entered| == |c.left| > 0
    && (forall p :: 0 <= p < |c.left| ==> c.left[p] <= c.entered[p] <= c.left[p] + 1)
    && (forall p, q :: 0 <= p < |c.left| && 0 <= q < |c.entered| ==> c.left[p] <= c.entered[q])
  }

  ghost predicate Allowed(c: Calls) { Reachable(Start, Step, c) }

  lemma AllowedGood(c: Calls)
    requires Allowed(c)
    ensures Good(c)
  {
    forall d, e | Good(d) && Step(d, e) ensures Good(e) {
      var p: nat :| Enters(d, e, p) || Leaves(d, e, p);
    }
    ReachableInvariant(Start, Step, Good, c);
  }

  /** In every reachable state of a barrier no PE has returned from more calls than any PE has made,
      and no two PEs are more than one call apart. */
  lemma NobodyLeavesEarly(c: Calls, p: nat, q: nat)
    requires Allowed(c) && p < |c.left| && q < |c.left|
    ensures |c.entered| == |c.left| && c.left[p] <= c.entered[q] && c.entered[p] <= c.entered[q] + 1
  {
    AllowedGood(c);
  }

  /** A PE with the fewest calls made, and among those the fewest left: if it is inside, it may leave. */
  lemma {:induction false} Slowest(c: Calls, k: nat) returns (q: nat)
    requires 0 < k <= |c.entered| == |c.left|
    ensures q < k
    ensures forall r :: 0 <= r < k ==>
              c.entered[q] < c.entered[r] || (c.entered[q] == c.entered[r] && c.left[q] <= c.left[r])
  {
    if k == 1 {
      q := 0;
    } else {
      q := Slowest(c, k - 1);
      var r := k - 1;
      if c.entered[r] < c.entered[q] || (c.entered[r] == c.entered[q] && c.left[r] < c.left[q]) {
        q := r;
      }
    }
  }

  /** A system whose every step either changes no call counter or is a step of the specification
      only ever reaches call counters the specification allows. */
  lemma RefinesBarrier<S(!new)>(init: S -> bool, next: (S, S) -> bool, inv: S -> bool, calls: S -> Calls, run: seq<S>)
    requires IsRun(init, next, run)
    requires forall s :: init(s) ==> inv(s) && Start(calls(s))
    requires forall s, t {:trigger next(s, t)} :: inv(s) && next(s, t) ==>
             inv(t) && (calls(t) == calls(s) || Step(calls(s), calls(t)))
    ensures forall i :: 0 <= i < |run| ==> inv(run[i]) && Allowed(calls(run[i]))
  {
    for i := 0 to |run|
      invariant forall k :: 0 <= k < i ==> inv(run[k]) && Allowed(calls(run[k]))
    {
      assert RunAt(init, next, run, i);
      if i == 0 {
        ReachableInit(Start, Step, calls(run[0]));
      } else if calls(run[i]) != calls(run[i - 1]) {
        ReachableStep(Start, Step, calls(run[i - 1]), calls(run[i]));
      }
    }
  }
}
