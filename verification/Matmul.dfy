/** The multiply kernel on row-major arrays with leading dimensions, and its meaning. */
module Matmul {
  import opened Bits

  function Idx(i: nat, dist: nat, k: nat): nat { i * dist + k }

  /** Where cell x of a matrix of width d is. */
  function Row(x: nat, d: nat): nat
    requires d > 0
  {
    x / d
  }
  function Column(x: nat, d: nat): (c: nat)
    requires d > 0
    ensures c < d
  {
    x % d
  }

  /** The first `count` terms of row i of A times column j of B. */
  function Dot(a: seq<int>, adist: nat, b: seq<int>, bdist: nat, i: nat, j: nat, count: nat): int
    requires forall k :: 0 <= k < count ==> Idx(i, adist, k) < |a| && Idx(k, bdist, j) < |b|
  {
    if count == 0 then 0
    else Dot(a, adist, b, bdist, i, j, count - 1) + a[Idx(i, adist, count - 1)] * b[Idx(count - 1, bdist, j)]
  }

  /** Sizes of the call: Is x Ks times Ks x Js, into columns coff.. of a matrix of width cdist. */
  datatype Dims = Dims(rows: nat, inner: nat, cols: nat, adist: nat, bdist: nat, cdist: nat, coff: nat)

  ghost predicate OperandsFit(d: Dims, alen: nat, blen: nat) {
    && d.cdist > 0 && d.coff + d.cols <= d.cdist
    && (forall i, k :: 0 <= i < d.rows && 0 <= k < d.inner ==> Idx(i, d.adist, k) < alen)
    && (forall k, j :: 0 <= k < d.inner && 0 <= j < d.cols ==> Idx(k, d.bdist, j) < blen)
  }

  ghost predicate Fits(d: Dims, alen: nat, blen: nat, clen: nat) {
    OperandsFit(d, alen, blen) && forall i, j :: 0 <= i < d.rows && 0 <= j < d.cdist ==> Idx(i, d.cdist, j) < clen
  }

  /** Cell x of C lies in the block the call updates. */
  predicate InBlock(d: Dims, x: nat)
    requires d.cdist > 0
  {
    Row(x, d.cdist) < d.rows && d.coff <= Column(x, d.cdist) < d.coff + d.cols
  }

  /** What the call adds to cell x when rows before i are finished, and in row i the terms before k,
      and the term k in the columns before j. */
  ghost function Added(d: Dims, a: seq<int>, b: seq<int>, x: nat, i: nat, k: nat, j: nat): int
    requires OperandsFit(d, |a|, |b|)
    requires k <= d.inner && (k == d.inner ==> j == 0)
  {
    if !InBlock(d, x) || Row(x, d.cdist) > i then 0
    else
      var row, col := Row(x, d.cdist), Column(x, d.cdist) - d.coff;
      Dot(a, d.adist, b, d.bdist, row, col, if row < i then d.inner else if col < j then k + 1 else k)
  }

  /** The product entry for cell x of the block. */
  ghost function BlockEntry(d: Dims, a: seq<int>, b: seq<int>, x: nat): int
    requires OperandsFit(d, |a|, |b|) && InBlock(d, x)
  {
    Dot(a, d.adist, b, d.bdist, Row(x, d.cdist), Column(x, d.cdist) - d.coff, d.inner)
  }

  /** The matrix after the call: each cell of the block gains the full product entry, no other cell changes. */
  ghost function MulAdd(d: Dims, a: seq<int>, b: seq<int>, c: seq<int>): (r: seq<int>)
    requires Fits(d, |a|, |b|, |c|)
    ensures |r| == |c|
    ensures forall x :: 0 <= x < |c| ==>
              r[x] == c[x] + if InBlock(d, x) then BlockEntry(d, a, b, x) else 0
  {
    seq(|c|, x requires 0 <= x < |c| =>
      c[x] + if InBlock(d, x) then BlockEntry(d, a, b, x) else 0)
  }

  lemma MulAddAt(d: Dims, a: seq<int>, b: seq<int>, c: seq<int>, x: nat)
    requires Fits(d, |a|, |b|, |c|) && x < |c|
    ensures MulAdd(d, a, b, c)[x] ==
            c[x] + if InBlock(d, x) then BlockEntry(d, a, b, x) else 0
  {
  }

  lemma DivMod(i: nat, d: nat, c: nat)
    requires c < d
    ensures Row(Idx(i, d, c), d) == i && Column(Idx(i, d, c), d) == c
  {
    Quotient(Idx(i, d, c), d, i);
    Split(Idx(i, d, c), d);
  }

  lemma Split(x: nat, d: nat)
    requires d > 0
    ensures Idx(Row(x, d), d, Column(x, d)) == x
  {
  }

  lemma TermAdded(d: Dims, a: seq<int>, b: seq<int>, i: nat, k: nat)
    requires OperandsFit(d, |a|, |b|) && k < d.inner
    ensures forall x: nat :: Added(d, a, b, x, i, k, d.cols) == Added(d, a, b, x, i, k + 1, 0)
  {
  }

  lemma RowAdded(d: Dims, a: seq<int>, b: seq<int>, i: nat)
    requires OperandsFit(d, |a|, |b|)
    ensures forall x: nat :: Added(d, a, b, x, i, d.inner, 0) == Added(d, a, b, x, i + 1, 0, 0)
  {
  }

  lemma AllAdded(d: Dims, a: seq<int>, b: seq<int>, c: seq<int>)
    requires Fits(d, |a|, |b|, |c|)
    ensures forall x :: 0 <= x < |c| ==> MulAdd(d, a, b, c)[x] == c[x] + Added(d, a, b, x, d.rows, 0, 0)
  {
  }

  /** mmul: the triple loop, in the code's order, on C in place. */
  method Mmul(d: Dims, a: array<int>, b: array<int>, c: array<int>)
    requires Fits(d, a.Length, b.Length, c.Length) && c != a && c != b
    modifies c
    ensures c[..] == MulAdd(d, a[..], b[..], old(c[..]))
  {
    ghost var c0, sa, sb := c[..], a[..], b[..];
    for i := 0 to d.rows
      invariant a[..] == sa && b[..] == sb
      invariant forall x :: 0 <= x < c.Length ==> c[x] == c0[x] + Added(d, sa, sb, x, i, 0, 0)
    {
      for k := 0 to d.inner
        invariant a[..] == sa && b[..] == sb
        invariant forall x :: 0 <= x < c.Length ==> c[x] == c0[x] + Added(d, sa, sb, x, i, k, 0)
      {
        var aik := a[Idx(i, d.adist, k)];
        for j := 0 to d.cols
          invariant a[..] == sa && b[..] == sb && aik == sa[Idx(i, d.adist, k)]
          invariant forall x :: 0 <= x < c.Length ==> c[x] == c0[x] + Added(d, sa, sb, x, i, k, j)
        {
          var at := Idx(i, d.cdist, d.coff + j);
          DivMod(i, d.cdist, d.coff + j);
          c[at] := c[at] + aik * b[Idx(k, d.bdist, j)];
          forall x | 0 <= x < c.Length && x != at
            ensures Added(d, sa, sb, x, i, k, j + 1) == Added(d, sa, sb, x, i, k, j)
          {
            Split(x, d.cdist);
          }
        }
        TermAdded(d, sa, sb, i, k);
      }
      RowAdded(d, sa, sb, i);
    }
    AllAdded(d, sa, sb, c0);
  }
}
