/** Runs of a transition system, and the two induction principles every protocol here uses:
    invariants hold over whole runs, and a measure bounds how long a run can go on. */
module Runs {

  /** The i-th state of a run is an initial one or comes from the one before. */
  ghost predicate RunAt<S(!new)>(init: S -> bool, next: (S, S) -> bool, run: seq<S>, i: int) {
    0 <= i < |run| ==> if i == 0 then init(run[0]) else next(run[i - 1], run[i])
  }

  /** A finite run: it starts in an initial state and every consecutive pair is a step. */
  ghost predicate IsRun<S(!new)>(init: S -> bool, next: (S, S) -> bool, run: seq<S>) {
    |run| > 0 && forall i {:trigger RunAt(init, next, run, i)} :: RunAt(init, next, run, i)
  }

  ghost predicate Reachable<S(!new)>(init: S -> bool, next: (S, S) -> bool, s: S) {
    exists run :: IsRun(init, next, run) && run[|run| - 1] == s
  }

  /** A run is a path from an initial state. */
  lemma RunIsPath<S(!new)>(init: S -> bool, next: (S, S) -> bool, run: seq<S>)
    requires |run| > 0
    ensures IsRun(init, next, run) <==> init(run[0]) && IsPath(next, run)
  {
    if IsRun(init, next, run) {
      assert RunAt(init, next, run, 0);
      forall i ensures StepAt(next, run, i) { assert RunAt(init, next, run, i + 1); }
    } else if init(run[0]) && IsPath(next, run) {
      forall i ensures RunAt(init, next, run, i) { assert StepAt(next, run, i - 1); }
    }
  }

  /** What an initial state has and every step keeps, every reachable state has. */
  lemma InvariantHolds<S(!new)>(init: S -> bool, next: (S, S) -> bool, inv: S -> bool, run: seq<S>)
    requires IsRun(init, next, run)
    requires forall s :: init(s) ==> inv(s)
    requires forall s, t {:trigger next(s, t)} :: inv(s) && next(s, t) ==> inv(t)
    ensures forall i :: 0 <= i < |run| ==> inv(run[i])
  {
    for i := 0 to |run|
      invariant forall k :: 0 <= k < i ==> inv(run[k])
    {
      assert RunAt(init, next, run, i);
    }
  }

  lemma ReachableInvariant<S(!new)>(init: S -> bool, next: (S, S) -> bool, inv: S -> bool, s: S)
    requires Reachable(init, next, s)
    requires forall t :: init(t) ==> inv(t)
    requires forall t, u {:trigger next(t, u)} :: inv(t) && next(t, u) ==> inv(u)
    ensures inv(s)
  {
    var run :| IsRun(init, next, run) && run[|run| - 1] == s;
    InvariantHolds(init, next, inv, run);
  }

  /** An initial state is reachable, and one more step keeps a state reachable. */
  lemma ReachableInit<S(!new)>(init: S -> bool, next: (S, S) -> bool, s: S)
    requires init(s)
    ensures Reachable(init, next, s)
  {
    RunIsPath(init, next, [s]);
  }

  lemma ReachableStep<S(!new)>(init: S -> bool, next: (S, S) -> bool, s: S, t: S)
    requires Reachable(init, next, s) && next(s, t)
    ensures Reachable(init, next, t)
  {
    var run :| IsRun(init, next, run) && run[|run| - 1] == s;
    RunIsPath(init, next, run);
    LongerPath(next, run, t);
    RunIsPath(init, next, run + [t]);
  }

  /** The i-th step of a path. */
  ghost predicate StepAt<S(!new)>(next: (S, S) -> bool, run: seq<S>, i: int) {
    0 <= i < |run| - 1 ==> next(run[i], run[i + 1])
  }

  /** A sequence of steps from a given state, wherever that state came from. */
  ghost predicate IsPath<S(!new)>(next: (S, S) -> bool, path: seq<S>) {
    |path| > 0 && forall i {:trigger StepAt(next, path, i)} :: StepAt(next, path, i)
  }

  /** A path without its last step. */
  lemma PrefixIsPath<S(!new)>(next: (S, S) -> bool, path: seq<S>)
    requires IsPath(next, path) && |path| > 1
    ensures IsPath(next, path[..|path| - 1]) && next(path[|path| - 2], path[|path| - 1])
  {
    var prefix := path[..|path| - 1];
    forall i ensures StepAt(next, prefix, i) { assert StepAt(next, path, i); }
    assert StepAt(next, path, |path| - 2);
  }

  /** And one with one step more. */
  lemma LongerPath<S(!new)>(next: (S, S) -> bool, path: seq<S>, t: S)
    requires IsPath(next, path) && next(path[|path| - 1], t)
    ensures IsPath(next, path + [t]) && (path + [t])[|path + [t]| - 1] == t
  {
    var longer := path + [t];
    forall i ensures StepAt(next, longer, i) { assert StepAt(next, path, i); }
  }

  /** What the first state of a path has and every step keeps, its last state has. */
  lemma {:induction false} PathKeeps<S(!new)>(next: (S, S) -> bool, inv: S -> bool, path: seq<S>)
    requires IsPath(next, path) && inv(path[0])
    requires forall s, t {:trigger next(s, t)} :: inv(s) && next(s, t) ==> inv(t)
    ensures inv(path[|path| - 1])
  {
    if |path| > 1 {
      PrefixIsPath(next, path);
      PathKeeps(next, inv, path[..|path| - 1]);
    }
  }

  /** If every step from a good state keeps it good and lowers the measure,
      no path is longer than the measure of its first state allows. */
  lemma {:induction false} MeasureBoundsPath<S(!new)>(next: (S, S) -> bool, inv: S -> bool, measure: S -> nat,
                                                      path: seq<S>)
    requires IsPath(next, path) && inv(path[0])
    requires forall s, t {:trigger next(s, t)} :: inv(s) && next(s, t) ==> inv(t) && measure(t) < measure(s)
    ensures inv(path[|path| - 1])
    ensures |path| - 1 + measure(path[|path| - 1]) <= measure(path[0])
  {
    if |path| > 1 {
      PrefixIsPath(next, path);
      MeasureBoundsPath(next, inv, measure, path[..|path| - 1]);
    }
  }

  /** The sum of a sequence of naturals, used to add up what each PE still has to do. */
  ghost function Sum(s: seq<nat>): nat {
    if s == [] then 0 else Sum(s[..|s| - 1]) + s[|s| - 1]
  }

  lemma {:induction false} SumUpdate(s: seq<nat>, i: nat, v: nat)
    requires i < |s|
    ensures Sum(s[i := v]) == Sum(s) - s[i] + v
  {
    if i == |s| - 1 {
      assert s[i := v][..i] == s[..i];
    } else {
      assert s[i := v][..|s| - 1] == s[..|s| - 1][i := v];
      SumUpdate(s[..|s| - 1], i, v);
    }
  }

  lemma {:induction false} SumZero(s: seq<nat>)
    requires Sum(s) == 0
    ensures forall i :: 0 <= i < |s| ==> s[i] == 0
  {
    if s != [] { SumZero(s[..|s| - 1]); }
  }
}
