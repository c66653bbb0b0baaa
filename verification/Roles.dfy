/** Who plays which rank: the role tables every PE keeps in many-copy mode, and what a failure does to them. */
module Roles {
  import opened Lists

  datatype Kind = Original | Spare | Resurrected | Dead
  datatype Role = Active | Storage

  /** One PE's copy of the tables.  `pe[p]` is the rank PE p plays, `count` how many entries of `storage` count. */
  datatype View = View(pe: seq<int>, kinds: seq<Kind>, roles: seq<Role>, storage: seq<nat>, count: int,
                       replaced: seq<int>)

  ghost predicate Shape(v: View) {
    && |v.pe| == |v.kinds| == |v.roles| == |v.replaced|
    && 0 <= v.count <= |v.storage|
    && forall i :: 0 <= i < |v.storage| ==> v.storage[i] < |v.pe|
  }

  /** The failures the code can process: of a PE whose replacement, if it needs one, is still in the list. */
  ghost predicate CanRollBack(v: View, dead: nat) {
    Shape(v) && dead < |v.pe| && (v.roles[dead] == Active || v.roles[dead] == Storage ==> v.count > 0)
  }

  // ------------------------------------------------------------ what a table must say

  /** PE p is alive and plays rank r. */
  ghost predicate Plays(v: View, p: int, r: int)
    requires Shape(v)
  {
    0 <= p < |v.pe| && (v.kinds[p] == Original || v.kinds[p] == Resurrected) && v.pe[p] == r
  }

  ghost predicate Listed(v: View, p: int)
    requires Shape(v)
  {
    exists i :: 0 <= i < v.count && v.storage[i] == p
  }

  ghost predicate PeOk(v: View, n: nat, p: int)
    requires Shape(v)
  {
    0 <= p < |v.pe| ==>
      match v.kinds[p]
      case Original => p < n && v.pe[p] == p && v.roles[p] == Active
      case Spare => p >= n && v.pe[p] == p && v.roles[p] == Storage && Listed(v, p)
      case Resurrected => p >= n && 0 <= v.pe[p] < n && v.roles[p] == Active
      case Dead => v.pe[p] == -1
  }

  ghost predicate Played(v: View, r: int)
    requires Shape(v)
  {
    exists p :: Plays(v, p, r)
  }

  ghost predicate SlotOk(v: View, i: int)
    requires Shape(v)
  {
    0 <= i < v.count ==> v.kinds[v.storage[i]] == Spare
  }

  /** Each of the n ranks is played by exactly one live PE, and the list holds exactly the live storage PEs,
      each once. */
  ghost predicate Good(v: View, n: nat) {
    && Shape(v)
    && (forall p {:trigger PeOk(v, n, p)} :: PeOk(v, n, p))
    && (forall i {:trigger SlotOk(v, i)} :: SlotOk(v, i))
    && (forall i, k :: 0 <= i < k < |v.storage| ==> v.storage[i] != v.storage[k])
    && (forall r {:trigger Played(v, r)} :: 0 <= r < n ==> Played(v, r))
    && (forall p, q, r {:trigger Plays(v, p, r), Plays(v, q, r)} :: Plays(v, p, r) && Plays(v, q, r) ==> p == q)
  }

  // ------------------------------------------------------------ set up

  /** PEs 0 .. npes - spes - 1 are active, the others storage. */
  ghost predicate IsStart(v: View, npes: nat, spes: nat) {
    && Shape(v) && |v.pe| == npes && |v.storage| == v.count == spes < npes
    && (forall p :: 0 <= p < npes ==> v.pe[p] == p)
    && (forall p :: 0 <= p < npes ==> v.kinds[p] == (if p < npes - spes then Original else Spare))
    && (forall p :: 0 <= p < npes ==> v.roles[p] == (if p < npes - spes then Active else Storage))
    && (forall i :: 0 <= i < spes ==> v.storage[i] == npes - spes + i)
  }

  lemma StartGood(v: View, npes: nat, spes: nat)
    requires IsStart(v, npes, spes)
    ensures Good(v, npes - spes)
  {
    var n := npes - spes;
    forall p ensures PeOk(v, n, p) {
      if n <= p < npes { assert v.storage[p - n] == p; }
    }
    forall r | 0 <= r < n ensures Played(v, r) { assert Plays(v, r, r); }
  }

  // ------------------------------------------------------------ a failure

  /** The tables after the failure of `dead`, as every other PE computes them. */
  ghost function RolledBack(v: View, dead: nat): (t: View)
    requires CanRollBack(v, dead)
    ensures |t.pe| == |v.pe|
  {
    if v.roles[dead] == Active then
      var chosen := v.storage[v.count - 1];
      v.(roles := v.roles[chosen := Active], kinds := v.kinds[chosen := Resurrected][dead := Dead],
         pe := v.pe[dead := -1][chosen := dead], replaced := v.replaced[dead := chosen], count := v.count - 1)
    else
      v.(pe := v.pe[dead := -1], kinds := v.kinds[dead := Dead], count := v.count - 1)
  }

  /** The chosen PE takes the rank of a dead original PE, and everybody else keeps theirs. */
  lemma OriginalReplaced(v: View, n: nat, dead: nat, t: View)
    requires Good(v, n) && CanRollBack(v, dead) && v.kinds[dead] == Original && t == RolledBack(v, dead)
    ensures Good(t, n)
  {
    var chosen := v.storage[v.count - 1];
    assert SlotOk(v, v.count - 1) && PeOk(v, n, chosen) && PeOk(v, n, dead);
    forall p ensures PeOk(t, n, p) {
      assert PeOk(v, n, p);
      if 0 <= p < |v.pe| && v.kinds[p] == Spare && p != chosen {
        var i :| 0 <= i < v.count && v.storage[i] == p;
        assert t.storage[i] == p && i < t.count;
      }
    }
    forall i ensures SlotOk(t, i) { assert SlotOk(v, i); }
    forall r | 0 <= r < n ensures Played(t, r) {
      assert Played(v, r);
      var p :| Plays(v, p, r);
      assert PeOk(v, n, p);
      if p == dead { assert Plays(t, chosen, r); } else { assert Plays(t, p, r); }
    }
    forall p, q, r | Plays(t, p, r) && Plays(t, q, r) ensures p == q {
      SamePlayer(v, n, dead, t, p, r);
      SamePlayer(v, n, dead, t, q, r);
    }
  }

  lemma SamePlayer(v: View, n: nat, dead: nat, t: View, p: int, r: int)
    requires Good(v, n) && CanRollBack(v, dead) && v.kinds[dead] == Original && t == RolledBack(v, dead)
    requires Shape(t) && Plays(t, p, r)
    ensures if p == v.storage[v.count - 1] then Plays(v, dead, r) else Plays(v, p, r) && p != dead
  {
    assert PeOk(v, n, dead) && SlotOk(v, v.count - 1) && PeOk(v, n, v.storage[v.count - 1]);
  }

  lemma LastStorageGone(v: View, n: nat, dead: nat, t: View)
    requires Good(v, n) && CanRollBack(v, dead) && v.kinds[dead] == Spare && t == RolledBack(v, dead)
    requires v.storage[v.count - 1] == dead
    ensures Good(t, n)
  {
    assert PeOk(v, n, dead);
    forall p ensures PeOk(t, n, p) {
      assert PeOk(v, n, p);
      if 0 <= p < |v.pe| && v.kinds[p] == Spare && p != dead {
        var i :| 0 <= i < v.count && v.storage[i] == p;
        assert t.storage[i] == p && i < t.count;
      }
    }
    forall i ensures SlotOk(t, i) { assert SlotOk(v, i); }
    forall r | 0 <= r < n ensures Played(t, r) {
      assert Played(v, r);
      var p :| Plays(v, p, r);
      assert Plays(t, p, r);
    }
    forall p, q, r | Plays(t, p, r) && Plays(t, q, r) ensures p == q {
      assert Plays(v, p, r) && Plays(v, q, r);
    }
  }

  /** A failure keeps the tables good exactly if the dead PE was an original one, or the storage PE at the end
      of the list.  When a PE dies that had replaced another, its replacement takes its number instead of its
      rank, and the rank is lost; when another storage PE dies, the list loses a live one and keeps the dead. */
  lemma GoodAfterExactly(v: View, n: nat, dead: nat)
    requires Good(v, n) && CanRollBack(v, dead) && v.kinds[dead] != Dead
    ensures Good(RolledBack(v, dead), n) <==> v.kinds[dead] == Original || v.storage[v.count - 1] == dead
  {
    var t := RolledBack(v, dead);
    assert PeOk(v, n, dead) && SlotOk(v, v.count - 1);
    if v.kinds[dead] == Original {
      OriginalReplaced(v, n, dead, t);
    } else if v.kinds[dead] == Resurrected {
      var r := v.pe[dead];
      assert Plays(v, dead, r);
      if Played(t, r) {
        var p :| Plays(t, p, r);
        assert PeOk(v, n, v.storage[v.count - 1]);
        assert Plays(v, p, r);
      }
    } else if v.storage[v.count - 1] == dead {
      LastStorageGone(v, n, dead, t);
    } else {
      var i :| 0 <= i < v.count && v.storage[i] == dead;
      assert !SlotOk(t, i);
    }
  }

  // ------------------------------------------------------------ any number of failures

  /** The tables of PE `me` after these failures, in this order; it does not process its own. */
  ghost function After(v: View, me: nat, deaths: seq<nat>): View {
    if deaths == [] then v
    else
      var u, last := After(v, me, deaths[..|deaths| - 1]), deaths[|deaths| - 1];
      if last != me && CanRollBack(u, last) then RolledBack(u, last) else u
  }

  /** All survivors have the same tables. */
  lemma {:induction false} SurvivorsAgree(v: View, me: nat, other: nat, deaths: seq<nat>)
    requires me !in deaths && other !in deaths
    ensures After(v, me, deaths) == After(v, other, deaths)
  {
    if deaths != [] { SurvivorsAgree(v, me, other, deaths[..|deaths| - 1]); }
  }

  /** The k-th dead PE's rank is played by the k-th storage PE from the end. */
  ghost predicate Replaced(t: View, deaths: seq<nat>, k: int) {
    0 <= k < |deaths| ==>
      && |deaths| <= |t.pe| == |t.kinds| == |t.replaced| && deaths[k] < |t.pe|
      && t.pe[|t.pe| - 1 - k] == deaths[k] && t.kinds[|t.pe| - 1 - k] == Resurrected
      && t.replaced[deaths[k]] == |t.pe| - 1 - k && t.kinds[deaths[k]] == Dead
  }

  ghost predicate OriginalStill(t: View, n: nat, deaths: seq<nat>, p: int)
    requires |t.kinds| >= n
  {
    0 <= p < n && p !in deaths ==> t.kinds[p] == Original
  }

  lemma ReplacedStill(u: View, t: View, deaths: seq<nat>, k: int)
    requires 0 < |deaths| <= |u.pe| && deaths[|deaths| - 1] < |u.pe| - |deaths| && Distinct(deaths)
    requires CanRollBack(u, deaths[|deaths| - 1]) && t == RolledBack(u, deaths[|deaths| - 1])
    requires u.roles[deaths[|deaths| - 1]] == Active && u.storage[u.count - 1] == |u.pe| - |deaths|
    requires Replaced(u, deaths[..|deaths| - 1], k)
    requires 0 <= k < |deaths| ==> deaths[k] < |u.pe| - |deaths|
    ensures Replaced(t, deaths, k)
  {
    if 0 <= k < |deaths| - 1 {
      assert deaths[..|deaths| - 1][k] == deaths[k] && deaths[k] != deaths[|deaths| - 1];
    }
  }

  /** As many failures of original PEs as there are storage PEs, in any order: every rank is played by exactly
      one live PE, and it is known which. */
  lemma {:induction false} RanksSurvive(v: View, npes: nat, spes: nat, me: nat, deaths: seq<nat>)
    requires IsStart(v, npes, spes) && Distinct(deaths) && |deaths| <= spes && me !in deaths
    requires forall i :: 0 <= i < |deaths| ==> deaths[i] < npes - spes
    ensures var t := After(v, me, deaths);
            && Good(t, npes - spes) && |t.pe| == npes && t.count == spes - |deaths| && t.storage == v.storage
            && (forall k {:trigger Replaced(t, deaths, k)} :: Replaced(t, deaths, k))
            && (forall p {:trigger OriginalStill(t, npes - spes, deaths, p)} ::
                 OriginalStill(t, npes - spes, deaths, p))
  {
    var n := npes - spes;
    if deaths == [] {
      StartGood(v, npes, spes);
    } else {
      var before, last := deaths[..|deaths| - 1], deaths[|deaths| - 1];
      RanksSurvive(v, npes, spes, me, before);
      var u := After(v, me, before);
      assert OriginalStill(u, n, before, last);
      var t := RolledBack(u, last);
      OriginalReplaced(u, n, last, t);
      assert u.storage[u.count - 1] == npes - |deaths|;
      assert PeOk(u, n, last);
      forall k ensures Replaced(t, deaths, k) {
        assert Replaced(u, before, k);
        ReplacedStill(u, t, deaths, k);
      }
      forall p ensures OriginalStill(t, n, deaths, p) { assert OriginalStill(u, n, before, p); }
    }
  }

  // ------------------------------------------------------------ the code

  class RoleTables {
    const me: nat
    var kind: Kind
    var role: Role
    var active: nat
    var spares: nat
    var view: View

    /** A PE's own kind and role are what its tables say of it. */
    ghost predicate Valid()
      reads this
    {
      Shape(view) && me < |view.pe| == active + spares && kind == view.kinds[me] && role == view.roles[me]
    }

    /** Sets up the tables; `garbage` is what the allocated arrays held. */
    constructor (me: nat, npes: nat, spes: nat, garbage: View)
      requires me < npes && 0 < spes < npes
      requires |garbage.pe| == |garbage.kinds| == |garbage.roles| == |garbage.replaced| == npes
               && |garbage.storage| == spes
      ensures Valid() && IsStart(view, npes, spes) && this.me == me && active == npes - spes
    {
      this.me, active, spares := me, npes - spes, spes;
      var v := garbage;
      for i := 0 to npes
        invariant v == garbage.(pe := v.pe) && |v.pe| == npes && forall p :: 0 <= p < i ==> v.pe[p] == p
      {
        v := v.(pe := v.pe[i := i]);
      }
      for i := 0 to npes - spes
        invariant v == garbage.(pe := v.pe, kinds := v.kinds, roles := v.roles)
                  && |v.pe| == |v.kinds| == |v.roles| == npes
        invariant forall p :: 0 <= p < npes ==> v.pe[p] == p
        invariant forall p :: 0 <= p < i ==> v.kinds[p] == Original && v.roles[p] == Active
      {
        v := v.(kinds := v.kinds[i := Original], roles := v.roles[i := Active]);
      }
      kind, role := if me < npes - spes then Original else Spare, if me < npes - spes then Active else Storage;
      v := v.(count := spes);
      for i := npes - spes to npes
        invariant v == garbage.(pe := v.pe, kinds := v.kinds, roles := v.roles, storage := v.storage, count := spes)
        invariant |v.pe| == |v.kinds| == |v.roles| == npes && |v.storage| == spes
        invariant forall p :: 0 <= p < npes ==> v.pe[p] == p
        invariant forall p :: 0 <= p < i ==> v.kinds[p] == if p < npes - spes then Original else Spare
        invariant forall p :: 0 <= p < i ==> v.roles[p] == if p < npes - spes then Active else Storage
        invariant forall k :: 0 <= k < i - (npes - spes) ==> v.storage[k] == npes - spes + k
      {
        v := v.(kinds := v.kinds[i := Spare], roles := v.roles[i := Storage],
          storage := v.storage[i - (npes - spes) := i]);
      }
      view := v;
    }

    /** The rank that PE p plays if it plays one, -1 for a dead or unknown PE, and a storage PE's own number. */
    method PeNum(p: int) returns (r: int)
      requires Valid()
      ensures forall k :: Plays(view, p, k) ==> r == k
      ensures if 0 <= p < |view.pe| then r == view.pe[p] else r == -1
      ensures Good(view, active) && 0 <= p < |view.pe| ==>
                match view.kinds[p]
                case Original => Plays(view, p, r) && r == p < active
                case Resurrected => Plays(view, p, r) && 0 <= r < active
                case Spare => r == p
                case Dead => r == -1
    {
      r := -1;
      if 0 <= p < active + spares {
        r := view.pe[p];
      }
      assert PeOk(view, active, p) || !Good(view, active);
    }

    method Rollback(dead: nat)
      requires Valid() && CanRollBack(view, dead)
      requires view.roles[dead] == Active && dead != me ==> view.roles[view.storage[view.count - 1]] == Storage
      modifies `view, `kind, `role
      ensures Valid()
      ensures view == if me == dead then old(view) else RolledBack(old(view), dead)
      ensures me != dead ==> view.storage == old(view.storage) && view.count == old(view.count) - 1
      ensures me != dead && old(view.roles[dead]) == Active ==>
                var chosen := old(view.storage[view.count - 1]);
                forall p :: 0 <= p < |view.pe| ==>
                  && view.pe[p] == (if p == chosen then dead else if p == dead then -1 else old(view).pe[p])
                  && view.kinds[p]
                     == (if p == dead then Dead else if p == chosen then Resurrected else old(view).kinds[p])
                  && view.roles[p] == (if p == chosen then Active else old(view).roles[p])
                  && view.replaced[p] == (if p == dead then chosen else old(view).replaced[p])
      ensures me != dead && old(view.roles[dead]) == Storage ==>
                && view.roles == old(view.roles) && view.replaced == old(view.replaced)
                && forall p :: 0 <= p < |view.pe| ==>
                  && view.pe[p] == (if p == dead then -1 else old(view).pe[p])
                  && view.kinds[p] == (if p == dead then Dead else old(view).kinds[p])
    {
      var v := view;
      if me != dead && v.roles[dead] == Active {
        var chosen := v.storage[v.count - 1];
        if role == Storage && me == chosen {
          kind, role := Resurrected, Active;
        }
        v := v.(roles := v.roles[chosen := Active]);
        v := v.(kinds := v.kinds[chosen := Resurrected]);
        v := v.(pe := v.pe[dead := -1]);
        v := v.(pe := v.pe[chosen := dead]);
        v := v.(replaced := v.replaced[dead := chosen]);
        v := v.(kinds := v.kinds[dead := Dead]);
        v := v.(count := v.count - 1);
      }
      if me != dead && v.roles[dead] == Storage {
        v := v.(pe := v.pe[dead := -1]);
        v := v.(count := v.count - 1);
        v := v.(kinds := v.kinds[dead := Dead]);
      }
      view := v;
    }
  }
}
