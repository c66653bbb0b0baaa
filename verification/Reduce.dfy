/** Reductions: every PE folds the sources of all PEs, pulled in work-array chunks between two barriers. */
module Reduce {

  /** The element the reduction at PE `me` computes from the first `count` PEs: its own element,
      then the other PEs' in active-set order. */
  ghost function Fold(op: (int, int) -> int, sources: seq<seq<int>>, me: nat, count: nat, j: nat): int
    requires me < |sources| && count <= |sources|
    requires forall p :: 0 <= p < |sources| ==> j < |sources[p]|
    decreases count
  {
    if count == 0 then sources[me][j]
    else if count - 1 == me then Fold(op, sources, me, count - 1, j)
    else op(Fold(op, sources, me, count - 1, j), sources[count - 1][j])
  }

  /** The plain fold over the active set, from its first PE to its last. */
  ghost function FoldAll(op: (int, int) -> int, sources: seq<seq<int>>, count: nat, j: nat): int
    requires 0 < count <= |sources|
    requires forall p :: 0 <= p < |sources| ==> j < |sources[p]|
    decreases count
  {
    if count == 1 then sources[0][j] else op(FoldAll(op, sources, count - 1, j), sources[count - 1][j])
  }

  /** Folding a sequence into a starting value, from left to right. */
  function LeftFold(op: (int, int) -> int, a: int, s: seq<int>): int {
    if s == [] then a else op(LeftFold(op, a, s[..|s| - 1]), s[|s| - 1])
  }

  /** The elements of all sources at j, and those of all but PE me's. */
  function Column(sources: seq<seq<int>>, j: nat): (c: seq<int>)
    requires forall p :: 0 <= p < |sources| ==> j < |sources[p]|
    ensures |c| == |sources| && forall p :: 0 <= p < |c| ==> c[p] == sources[p][j]
  {
    seq(|sources|, p requires 0 <= p < |sources| => sources[p][j])
  }

  /** The two folds are left folds: of the other PEs' elements, in order, into PE me's own, and of the rest of the
      column into its first element. */
  lemma {:induction false} FoldsInOrder(op: (int, int) -> int, sources: seq<seq<int>>, me: nat, count: nat, j: nat)
    requires me < |sources| && count <= |sources|
    requires forall p :: 0 <= p < |sources| ==> j < |sources[p]|
    ensures var c := Column(sources, j);
            Fold(op, sources, me, count, j)
            == LeftFold(op, c[me], if me < count then c[..me] + c[me + 1..count] else c[..count])
    ensures var c := Column(sources, j); count > 0 ==> FoldAll(op, sources, count, j) == LeftFold(op, c[0], c[1..count])
    decreases count
  {
    if count > 0 {
      var c, last := Column(sources, j), count - 1;
      FoldsInOrder(op, sources, me, last, j);
      if me < last {
        assert c[..me] + c[me + 1..count] == (c[..me] + c[me + 1..last]) + [c[last]];
      } else if me == last {
        assert c[..me] + c[me + 1..count] == c[..last];
      } else {
        assert c[..count] == c[..last] + [c[last]];
      }
      if last > 0 { assert c[1..count] == c[1..last] + [c[last]]; }
    }
  }

  lemma WholeFold(op: (int, int) -> int, sources: seq<seq<int>>, me: nat, j: nat)
    requires me < |sources| && forall p :: 0 <= p < |sources| ==> j < |sources[p]|
    ensures var c := Column(sources, j);
            && Fold(op, sources, me, |sources|, j) == LeftFold(op, c[me], c[..me] + c[me + 1..])
            && FoldAll(op, sources, |sources|, j) == LeftFold(op, c[0], c[1..])
  {
    FoldsInOrder(op, sources, me, |sources|, j);
    var c := Column(sources, j);
    assert c[me + 1..|sources|] == c[me + 1..] && c[1..|sources|] == c[1..];
  }

  ghost predicate AssociativeCommutative(op: (int, int) -> int) {
    && (forall a, b, c :: op(op(a, b), c) == op(a, op(b, c)))
    && (forall a, b :: op(a, b) == op(b, a))
  }

  /** For an associative and commutative operator it does not matter at which PE the fold starts. */
  lemma {:induction false} FoldIsFoldAll(op: (int, int) -> int, sources: seq<seq<int>>, me: nat, count: nat, j: nat)
    requires AssociativeCommutative(op)
    requires me < |sources| && 0 < count <= |sources|
    requires forall p :: 0 <= p < |sources| ==> j < |sources[p]|
    ensures Fold(op, sources, me, count, j)
            == if me < count then FoldAll(op, sources, count, j) else op(sources[me][j], FoldAll(op, sources, count, j))
    decreases count
  {
    if count > 1 {
      FoldIsFoldAll(op, sources, me, count - 1, j);
      var a, b, c := sources[me][j], FoldAll(op, sources, count - 1, j), sources[count - 1][j];
      assert op(op(a, b), c) == op(a, op(b, c));
      assert op(a, b) == op(b, a);
    }
  }

  // --------------------------------------------------------- overlap check

  /** INRANGE_CHECK on element pointers given as byte addresses: C scales the added count by the element size. */
  predicate InRange(a: nat, b: nat, n: nat, size: nat) { a >= b && a < b + n * size }

  /** OVERLAP_CHECK as it is called: the count passed is already in bytes. */
  predicate OverlapCheck(target: nat, source: nat, nreduce: nat, size: nat) {
    var snred := size * nreduce;
    InRange(target, source, snred, size) || InRange(source, target, snred, size)
  }

  predicate InArea(x: nat, start: nat, bytes: nat) { start <= x < start + bytes }

  /** Some byte belongs to both areas. */
  ghost predicate BytesOverlap(target: nat, source: nat, nreduce: nat, size: nat) {
    exists x: nat :: InArea(x, target, size * nreduce) && InArea(x, source, size * nreduce)
  }

  /** The check never misses an overlap.  Because the byte count is scaled once more it looks `size`
      times too far: it reports an overlap exactly when the areas start less than size*size*nreduce bytes apart. */
  lemma OverlapNeverMissed(target: nat, source: nat, nreduce: nat, size: nat)
    requires size > 0
    ensures BytesOverlap(target, source, nreduce, size) ==> OverlapCheck(target, source, nreduce, size)
    ensures OverlapCheck(target, source, nreduce, size)
            <==> (if target >= source then target - source else source - target) < size * nreduce * size
  {
    var snred := size * nreduce;
    assert snred * size >= snred by { assert snred * size - snred == snred * (size - 1); }
    if BytesOverlap(target, source, nreduce, size) {
      var x: nat :| InArea(x, target, snred) && InArea(x, source, snred);
    }
  }

  // ------------------------------------------------------ the gather loops

  /** The loops of udr_*_to_all between the two barriers, with the work array: full chunks of W elements
      from each other PE, then the remaining ones, folded in place into write_to. */
  method GatherLoops(op: (int, int) -> int, sources: seq<seq<int>>, me: nat, nreduce: nat, w: nat, pWrk: array<int>,
                     writeTo: array<int>)
    requires me < |sources| && w > 0 && pWrk.Length >= w && writeTo.Length >= nreduce && pWrk != writeTo
    requires forall p :: 0 <= p < |sources| ==> |sources[p]| >= nreduce
    modifies pWrk, writeTo
    ensures forall j :: 0 <= j < nreduce ==> writeTo[j] == Fold(op, sources, me, |sources|, j)
    ensures forall j :: 0 <= j < nreduce ==>
              var c := Column(sources, j); writeTo[j] == LeftFold(op, c[me], c[..me] + c[me + 1..])
    ensures writeTo[nreduce..] == old(writeTo[nreduce..])
  {
    var nloops, nrem := nreduce / w, nreduce % w;
    // the fold starts with the PE's own source
    for j := 0 to nreduce
      invariant forall h :: 0 <= h < j ==> writeTo[h] == sources[me][h]
      invariant writeTo[nreduce..] == old(writeTo[nreduce..])
    {
      writeTo[j] := sources[me][j];
    }
    // the other PEs' sources come in active-set order
    for i := 0 to |sources|
      invariant forall j :: 0 <= j < nreduce ==> writeTo[j] == Fold(op, sources, me, i, j)
      invariant writeTo[nreduce..] == old(writeTo[nreduce..])
    {
      if me != i {
        var ti := 0;
        for k := 0 to nloops
          invariant ti == k * w && ti + (nloops - k) * w + nrem == nreduce
          invariant Half(op, sources, me, i, nreduce, ti, writeTo[..])
          invariant writeTo[nreduce..] == old(writeTo[nreduce..])
        {
          assert (nloops - k) * w == (nloops - (k + 1)) * w + w;
          Remains(nloops - (k + 1), w);
          ti := FoldChunk(op, sources, me, i, nreduce, ti, w, pWrk, writeTo);
        }
        ti := FoldChunk(op, sources, me, i, nreduce, ti, nrem, pWrk, writeTo);
      }
    }
    forall j | 0 <= j < nreduce
      ensures var c := Column(sources, j); writeTo[j] == LeftFold(op, c[me], c[..me] + c[me + 1..])
    {
      WholeFold(op, sources, me, j);
    }
  }

  lemma Remains(a: nat, b: nat)
    ensures a * b >= 0
  {
  }

  /** PE i's first `ti` elements have been folded in, the others not yet. */
  ghost predicate Half(op: (int, int) -> int, sources: seq<seq<int>>, me: nat, i: nat, nreduce: nat, ti: nat,
                       area: seq<int>) {
    && me < |sources| && i < |sources| && ti <= nreduce <= |area|
    && (forall p :: 0 <= p < |sources| ==> |sources[p]| >= nreduce)
    && (forall j :: 0 <= j < ti ==> area[j] == Fold(op, sources, me, i + 1, j))
    && (forall j :: ti <= j < nreduce ==> area[j] == Fold(op, sources, me, i, j))
  }

  /** One get into the work array and the fold over it. */
  method FoldChunk(op: (int, int) -> int, sources: seq<seq<int>>, me: nat, i: nat, nreduce: nat, ti: nat, len: nat,
                   pWrk: array<int>, writeTo: array<int>)
    returns (end: nat)
    requires me != i && pWrk != writeTo && pWrk.Length >= len && ti + len <= nreduce
    requires Half(op, sources, me, i, nreduce, ti, writeTo[..])
    modifies pWrk, writeTo
    ensures end == ti + len && Half(op, sources, me, i, nreduce, end, writeTo[..])
    ensures writeTo[nreduce..] == old(writeTo[nreduce..])
  {
    for j := 0 to len
      invariant forall h :: 0 <= h < j ==> pWrk[h] == sources[i][ti + h]
      invariant writeTo[..] == old(writeTo[..])
    {
      pWrk[j] := sources[i][ti + j];
    }
    end := ti;
    for j := 0 to len
      invariant end == ti + j
      invariant forall h :: 0 <= h < len ==> pWrk[h] == sources[i][ti + h]
      invariant Half(op, sources, me, i, nreduce, end, writeTo[..])
      invariant writeTo[nreduce..] == old(writeTo[nreduce..])
    {
      writeTo[end] := op(writeTo[end], pWrk[j]);
      end := end + 1;
    }
  }
}
