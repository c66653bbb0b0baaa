/** What a PE sends to the storage PEs: reservations, and a carrier for each 100 words of a checkpoint. */
module Carriers {

  const CARR_DATA_SIZE := 100

  /** Both name the PE that asks and the memory part `id`, `count` words long.
      `Check` holds that part's words from `offset` on. */
  datatype Carrier =
    | Reserve(pe: nat, id: nat, count: nat, symmetric: bool)
    | Check(pe: nat, id: nat, count: nat, offset: nat, data: seq<int>)

  /** The carriers of one PE, in order. */
  function From(l: seq<Carrier>, pe: nat): seq<Carrier> {
    if l == [] then []
    else From(l[..|l| - 1], pe) + (if l[|l| - 1].pe == pe then [l[|l| - 1]] else [])
  }

  lemma {:induction false} FromPrefix(l: seq<Carrier>, k: nat, pe: nat)
    requires k <= |l|
    ensures From(l[..k], pe) <= From(l, pe)
  {
    if k == |l| {
      assert l[..k] == l;
    } else {
      var shorter := l[..|l| - 1];
      assert shorter[..k] == l[..k];
      FromPrefix(shorter, k, pe);
    }
  }

  /** Phase after phase: what one PE sent in two phases, in order. */
  lemma {:induction false} FromPhases(a: seq<Carrier>, b: seq<Carrier>, pe: nat)
    ensures From(a + b, pe) == From(a, pe) + From(b, pe)
  {
    if b == [] {
      assert a + b == a;
    } else {
      assert (a + b)[..|a + b| - 1] == a + b[..|b| - 1];
      FromPhases(a, b[..|b| - 1], pe);
    }
  }
}
