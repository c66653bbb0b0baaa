/** The bitwise fetch-and-op built from get and compare-and-swap: any number of PEs run it on one
    word while other atomics change the same word at any time. */
module FetchOp {
  import opened Runs
  import opened Bits

  /** A word of any width, read as a non-negative integer. */
  type Word = nat

  datatype Op = And | Or | Xor

  function Bitwise(op: Op, x: Word, v: Word): Word {
    match op
    case And => Bits.And(x, v)
    case Or => Bits.Or(x, v)
    case Xor => Bits.Xor(x, v)
  }

  /** One change of the word: a successful compare-and-swap of an operation, or some other atomic. */
  datatype Effect =
    | Own(p: nat, op: Op, v: Word, before: Word, after: Word)
    | Foreign(before: Word, after: Word)

  /** `start` is the number of effects when the operation was called; `seen` when it last read the word. */
  datatype Pc =
    | Idle
    | Get(op: Op, v: Word, start: nat)
    | Compare(op: Op, v: Word, orig: Word, start: nat, seen: nat)

  /** A completed operation: its result, and the effects counted at its call and at its return;
      `at` is the position of its own effect. */
  datatype Completed = Completed(p: nat, op: Op, v: Word, result: Word, start: nat, at: nat, end: nat)

  datatype State = State(initial: Word, word: Word, pc: seq<Pc>, effects: seq<Effect>, done: seq<Completed>)

  datatype Event = Call(p: nat, op: Op, v: Word) | Read(p: nat) | Cas(p: nat) | Other(w: Word)

  ghost predicate Initial(s: State) {
    s.word == s.initial && s.effects == [] && s.done == [] && forall p :: 0 <= p < |s.pc| ==> s.pc[p] == Idle
  }

  ghost predicate Enabled(s: State, e: Event) {
    match e
    case Call(p, _, _) => p < |s.pc| && s.pc[p] == Idle
    case Read(p) => p < |s.pc| && s.pc[p].Get?
    case Cas(p) => p < |s.pc| && s.pc[p].Compare?
    case Other(_) => true
  }

  /** The compare-and-swap and the loop test behind it: the word is replaced only if it still equals
      the value read; the value the swap returns decides whether to return or to read again. */
  ghost function CasStep(s: State, p: nat): State
    requires Enabled(s, Cas(p))
  {
    var c := s.pc[p];
    var ret := s.word;
    var rval := Bitwise(c.op, c.orig, c.v);
    var s1 :=
      if s.word == c.orig then s.(word := rval, effects := s.effects + [Own(p, c.op, c.v, s.word, rval)]) else s;
    if ret != c.orig then s1.(pc := s.pc[p := Get(c.op, c.v, c.start)])
    else s1.(pc := s.pc[p := Idle],
             done := s.done + [Completed(p, c.op, c.v, ret, c.start, |s1.effects| - 1, |s1.effects|)])
  }

  ghost function Apply(s: State, e: Event): State
    requires Enabled(s, e)
  {
    match e
    case Call(p, op, v) => s.(pc := s.pc[p := Get(op, v, |s.effects|)])
    case Read(p) => s.(pc := s.pc[p := Compare(s.pc[p].op, s.pc[p].v, s.word, s.pc[p].start, |s.effects|)])
    case Cas(p) => CasStep(s, p)
    case Other(w) => s.(word := w, effects := s.effects + [Foreign(s.word, w)])
  }

  ghost predicate Next(s: State, t: State) { exists e :: Enabled(s, e) && t == Apply(s, e) }

  // ------------------------------------------------------------ invariant

  /** The word after the first k effects. */
  ghost function Value(initial: Word, effects: seq<Effect>, k: nat): Word
    requires k <= |effects|
  {
    if k == 0 then initial else effects[k - 1].after
  }

  ghost predicate EffectOk(s: State, i: int) {
    0 <= i < |s.effects| ==>
      && s.effects[i].before == Value(s.initial, s.effects, i)
      && (s.effects[i].Own? ==> s.effects[i].after == Bitwise(s.effects[i].op, s.effects[i].before, s.effects[i].v))
      && (s.effects[i].Own? ==> exists j :: 0 <= j < |s.done| && s.done[j].at == i)
  }

  ghost predicate DoneOk(s: State, j: int) {
    0 <= j < |s.done| ==>
      var d := s.done[j];
      && d.start <= d.at < d.end <= |s.effects| && d.end == d.at + 1
      && s.effects[d.at].Own? && s.effects[d.at].p == d.p && s.effects[d.at].op == d.op && s.effects[d.at].v == d.v
      && s.effects[d.at].before == d.result
      && (forall i :: 0 <= i < j ==> s.done[i].at < d.at)
  }

  ghost predicate PcOk(s: State, p: int) {
    0 <= p < |s.pc| ==>
      match s.pc[p]
      case Idle => true
      case Get(_, _, start) => start <= |s.effects| && NotYet(s, p, start)
      case Compare(_, _, orig, start, seen) =>
        start <= seen <= |s.effects| && orig == Value(s.initial, s.effects, seen) && NotYet(s, p, start)
  }

  /** None of the effects since then is PE p's. */
  ghost predicate NotYet(s: State, p: int, since: nat) {
    forall i :: since <= i < |s.effects| && s.effects[i].Own? ==> s.effects[i].p != p
  }

  ghost predicate Inv(s: State) {
    && s.word == Value(s.initial, s.effects, |s.effects|)
    && (forall i {:trigger EffectOk(s, i)} :: EffectOk(s, i))
    && (forall j {:trigger DoneOk(s, j)} :: DoneOk(s, j))
    && (forall p {:trigger PcOk(s, p)} :: PcOk(s, p))
  }

  lemma StepKeepsInv(s: State, t: State)
    requires Inv(s) && Next(s, t)
    ensures Inv(t)
  {
    var e :| Enabled(s, e) && t == Apply(s, e);
    if e.Cas? { KeepCas(s, e.p); } else { KeepOther(s, e); }
  }

  lemma KeepOther(s: State, e: Event)
    requires Inv(s) && Enabled(s, e) && !e.Cas?
    ensures Inv(Apply(s, e))
  {
    var t := Apply(s, e);
    forall i ensures EffectOk(t, i) { assert EffectOk(s, i); }
    forall j ensures DoneOk(t, j) { assert DoneOk(s, j); }
    forall p ensures PcOk(t, p) { assert PcOk(s, p); }
  }

  lemma KeepCas(s: State, p: nat)
    requires Inv(s) && Enabled(s, Cas(p))
    ensures Inv(Apply(s, Cas(p)))
  {
    var t := Apply(s, Cas(p));
    if s.word == s.pc[p].orig { KeepSuccess(s, p, t); } else { KeepFailure(s, p, t); }
    forall q ensures PcOk(t, q) { assert PcOk(s, p) && PcOk(s, q); }
  }

  lemma KeepFailure(s: State, p: nat, t: State)
    requires Inv(s) && Enabled(s, Cas(p)) && s.word != s.pc[p].orig && t == Apply(s, Cas(p))
    ensures t.word == Value(t.initial, t.effects, |t.effects|)
    ensures forall i {:trigger EffectOk(t, i)} :: EffectOk(t, i)
    ensures forall j {:trigger DoneOk(t, j)} :: DoneOk(t, j)
  {
    forall i ensures EffectOk(t, i) { assert EffectOk(s, i); }
    forall j ensures DoneOk(t, j) { assert DoneOk(s, j); }
  }

  lemma KeepSuccess(s: State, p: nat, t: State)
    requires Inv(s) && Enabled(s, Cas(p)) && s.word == s.pc[p].orig && t == Apply(s, Cas(p))
    ensures t.word == Value(t.initial, t.effects, |t.effects|)
    ensures forall i {:trigger EffectOk(t, i)} :: EffectOk(t, i)
    ensures forall j {:trigger DoneOk(t, j)} :: DoneOk(t, j)
  {
    var n := |s.effects|;
    assert PcOk(s, p);
    assert t.effects[n].before == s.word;
    assert t.done[|s.done|].at == n;
    forall i ensures EffectOk(t, i) {
      assert EffectOk(s, i);
      if 0 <= i < n && s.effects[i].Own? {
        var j :| 0 <= j < |s.done| && s.done[j].at == i;
        assert t.done[j].at == i;
      }
    }
    forall j ensures DoneOk(t, j) {
      if j == |s.done| {
        forall i | 0 <= i < j ensures t.done[i].at < n { assert DoneOk(s, i); }
      } else {
        assert DoneOk(s, j);
      }
    }
  }

  ghost predicate Reached(s: State) { Reachable(Initial, Next, s) }

  lemma ReachedInv(s: State)
    requires Reached(s)
    ensures Inv(s)
  {
    forall t | Initial(t) ensures Inv(t) {}
    forall t, u | Inv(t) && Next(t, u) ensures Inv(u) { StepKeepsInv(t, u); }
    ReachableInvariant(Initial, Next, Inv, s);
  }

  // ------------------------------------------------------- linearizability

  /** Replaying the effects as indivisible operations, one after the other, from the initial word. */
  ghost function Replay(initial: Word, effects: seq<Effect>): Word {
    if effects == [] then initial
    else
      var e := effects[|effects| - 1];
      var w := Replay(initial, effects[..|effects| - 1]);
      match e
      case Own(_, op, v, _, _) => Bitwise(op, w, v)
      case Foreign(_, after) => after
  }

  lemma {:induction false} ReplayIsValue(s: State, k: nat)
    requires Inv(s) && k <= |s.effects|
    ensures Replay(s.initial, s.effects[..k]) == Value(s.initial, s.effects, k)
  {
    if k > 0 {
      ReplayIsValue(s, k - 1);
      assert s.effects[..k][..k - 1] == s.effects[..k - 1];
      assert EffectOk(s, k - 1);
    }
  }

  /** Linearizability.  The word is what the effects give when replayed as indivisible operations;
      each completed operation has exactly one effect, taken between its call and its return; it returned the word
      just before that effect, and the word just after it is the operator of that word and the operand in every bit. */
  lemma Linearizable(s: State, j: nat)
    requires Reached(s) && j < |s.done|
    ensures s.word == Replay(s.initial, s.effects)
    ensures var d := s.done[j];
            && d.start <= d.at < d.end <= |s.effects|
            && d.result == Replay(s.initial, s.effects[..d.at])
            && forall b: nat {:trigger Bit(Replay(s.initial, s.effects[..d.at + 1]), b)} ::
                 Bit(Replay(s.initial, s.effects[..d.at + 1]), b) <==>
                 match d.op
                 case And => Bit(d.result, b) && Bit(d.v, b)
                 case Or => Bit(d.result, b) || Bit(d.v, b)
                 case Xor => Bit(d.result, b) != Bit(d.v, b)
    ensures forall i :: 0 <= i < |s.done| && s.done[i].at == s.done[j].at ==> i == j
  {
    ReachedInv(s);
    assert DoneOk(s, j);
    var d := s.done[j];
    assert s.effects[..|s.effects|] == s.effects;
    ReplayIsValue(s, |s.effects|);
    ReplayIsValue(s, d.at);
    ReplayIsValue(s, d.at + 1);
    assert EffectOk(s, d.at);
    forall b: nat { BitByBit(d.result, d.v, b); }
    forall i | 0 <= i < |s.done| && s.done[i].at == d.at ensures i == j { assert DoneOk(s, i); }
  }

  /** And the effects keep the real-time order of the calls, and no operation of this kind has an
      effect without also completing with it. */
  lemma RealTimeOrder(s: State, i: nat, j: nat, k: nat)
    requires Reached(s) && i < |s.done| && j < |s.done| && k < |s.effects|
    ensures s.done[i].end <= s.done[j].start ==> s.done[i].at < s.done[j].at
    ensures s.effects[k].Own? ==> exists c :: 0 <= c < |s.done| && s.done[c].at == k
  {
    ReachedInv(s);
    assert DoneOk(s, i) && DoneOk(s, j) && EffectOk(s, k);
  }

  /** A failed attempt means that since this operation's read an effect that is not this PE's really changed the
      word; if all of them wrote back what they found, the attempt succeeds (so ABA does no harm). */
  lemma FailureMeansInterference(s: State, p: nat)
    requires Reached(s) && Enabled(s, Cas(p))
    ensures s.pc[p].seen <= |s.effects|
    ensures Apply(s, Cas(p)).pc[p].Get? ==>
              exists i :: s.pc[p].seen <= i < |s.effects| && s.effects[i].before != s.effects[i].after
                          && (s.effects[i].Foreign? || s.effects[i].p != p)
    ensures Apply(s, Cas(p)).pc[p].Idle? <==> s.word == s.pc[p].orig
  {
    ReachedInv(s);
    assert PcOk(s, p);
    if s.word != s.pc[p].orig {
      var i := FirstChange(s, s.pc[p].seen);
    }
  }

  /** PE p moves on by itself, for at most k steps or until its call has returned. */
  ghost function OwnSteps(s: State, p: nat, k: nat): State
    requires p < |s.pc|
    decreases k
  {
    if k == 0 || s.pc[p].Idle? then s
    else OwnSteps(Apply(s, if s.pc[p].Get? then Read(p) else Cas(p)), p, k - 1)
  }

  /** From any state, however stale what it has read, a call that is left alone completes within three of its steps,
      with the word as result and the effect of the operation on it. */
  lemma AloneCompletes(s: State, p: nat, op: Op, v: Word)
    requires p < |s.pc| && (s.pc[p].Idle? || (s.pc[p].op == op && s.pc[p].v == v))
    ensures var t := OwnSteps(if s.pc[p].Idle? then Apply(s, Call(p, op, v)) else s, p, 3);
            && t.pc[p].Idle? && |t.done| == |s.done| + 1 && t.done[|s.done|].p == p
            && t.done[|s.done|].result == s.word
            && forall b: nat {:trigger Bit(t.word, b)} ::
                 Bit(t.word, b) <==>
                 match op
                 case And => Bit(s.word, b) && Bit(v, b)
                 case Or => Bit(s.word, b) || Bit(v, b)
                 case Xor => Bit(s.word, b) != Bit(v, b)
  {
    forall b: nat { BitByBit(s.word, v, b); }
    var called := if s.pc[p].Idle? then Apply(s, Call(p, op, v)) else s;
    if called.pc[p].Compare? {
      var tried := Apply(called, Cas(p));
      assert OwnSteps(called, p, 3) == OwnSteps(tried, p, 2);
      if tried.pc[p].Get? { assert OwnSteps(tried, p, 2) == OwnSteps(Apply(tried, Read(p)), p, 1); }
    }
  }

  lemma {:induction false} FirstChange(s: State, k: nat) returns (i: nat)
    requires Inv(s) && k <= |s.effects| && s.word != Value(s.initial, s.effects, k)
    ensures k <= i < |s.effects| && s.effects[i].before != s.effects[i].after
    decreases |s.effects| - k
  {
    assert EffectOk(s, k);
    if s.effects[k].before != s.effects[k].after {
      i := k;
    } else {
      i := FirstChange(s, k + 1);
    }
  }

  // ----------------------------------------------------------- the code

  /** The word in its owner's memory; the ghost `s` is the machine's state. */
  class RemoteWord {
    var word: Word
    ghost var s: State

    ghost predicate Valid()
      reads this
    {
      Reached(s) && s.word == word
    }

    /** Anything the other PEs may do to the word while p is between two accesses. */
    method Others(ghost p: nat)
      requires Valid() && p < |s.pc|
      modifies this
      ensures Valid() && |s.pc| == |old(s.pc)| && s.pc[p] == old(s.pc[p])
    {
    }

    /** The access just made was the step e. */
    ghost method Step(e: Event)
      requires Reached(s) && Enabled(s, e) && word == Apply(s, e).word
      modifies `s
      ensures Valid() && s == Apply(old(s), e)
    {
      assert Next(s, Apply(s, e));
      ReachableStep(Initial, Next, s, Apply(s, e));
      s := Apply(s, e);
    }

    /** The retry loop, with at most `patience` extra attempts so that it ends.  On return the result is
        the word just before this operation's one effect, which lies between call and return. */
    method Fetch(p: nat, op: Op, v: Word, patience: nat) returns (ok: bool, result: Word)
      requires Valid() && p < |s.pc| && s.pc[p].Get? && s.pc[p].op == op && s.pc[p].v == v
      modifies this
      ensures Valid() && |s.pc| == |old(s.pc)|
      ensures ok ==> s.pc[p] == Idle && |s.done| > 0
                     && s.done[|s.done| - 1].p == p && s.done[|s.done| - 1].result == result
      ensures ok ==> old(s.pc[p].start) == s.done[|s.done| - 1].start <= s.done[|s.done| - 1].at < |s.effects|
      ensures ok ==> var after := s.effects[s.done[|s.done| - 1].at].after;
                     && s.effects[s.done[|s.done| - 1].at] == Own(p, op, v, result, after)
                     && forall b: nat {:trigger Bit(after, b)} ::
                          Bit(after, b) <==>
                          match op
                          case And => Bit(result, b) && Bit(v, b)
                          case Or => Bit(result, b) || Bit(v, b)
                          case Xor => Bit(result, b) != Bit(v, b)
      ensures !ok ==> s.pc[p] == old(s.pc[p]) && result == word
    {
      var tries := 0;
      result := 0;
      while true
        invariant Valid() && |s.pc| == |old(s.pc)| && s.pc[p] == old(s.pc[p])
        decreases patience - tries
      {
        // ucp_get
        var orig := word;
        Step(Read(p));
        Others(p);

        // ucp_atomic_cswap
        var rval := Bitwise(op, orig, v);
        result := word;
        if word == orig {
          word := rval;
        }
        Step(Cas(p));
        if result == orig {
          ReachedInv(s);
          assert DoneOk(s, |s.done| - 1) && EffectOk(s, s.done[|s.done| - 1].at);
          forall b: nat { BitByBit(result, v, b); }
          return true, result;
        }
        if tries >= patience {
          return false, result;
        }
        tries := tries + 1;
        Others(p);
      }
    }
  }
}
