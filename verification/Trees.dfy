/** The virtual trees behind the tree barrier and the broadcasts: k-ary and binomial, for every size. */
module Trees {
  import opened Bits
  import opened Lists

  /** A rooted tree on 0..n-1: a parent for each node but 0, and each node's children in the order
      the code visits them. */
  datatype Tree = Tree(n: nat, parent: seq<int>, kids: seq<seq<nat>>)

  /** Every parent is smaller than its child, child lists have no repetition,
      and c is listed by p exactly when p is c's parent. */
  ghost predicate IsTree(t: Tree) {
    && t.n > 0 && |t.parent| == |t.kids| == t.n && t.parent[0] == -1
    && (forall c :: 1 <= c < t.n ==> 0 <= t.parent[c] < c)
    && (forall p :: 0 <= p < t.n ==> Distinct(t.kids[p]))
    && (forall c :: 1 <= c < t.n ==> c in t.kids[t.parent[c]])
    && (forall p, c {:trigger c in t.kids[p]} :: 0 <= p < t.n && c in t.kids[p] ==> 1 <= c < t.n && t.parent[c] == p)
  }

  /** A set of children has at most as many elements as the list, and as many only if it is all of them. */
  lemma {:induction false} SubsetOfList(a: set<nat>, l: seq<nat>)
    requires Distinct(l) && forall c :: c in a ==> c in l
    ensures |a| <= |l|
    ensures |a| == |l| ==> forall c :: c in l ==> c in a
    ensures (forall c :: c in l ==> c in a) ==> |a| == |l|
  {
    if l == [] {
      if c :| c in a { assert false; }
      assert a == {};
    } else {
      var c := l[|l| - 1];
      var rest := l[..|l| - 1];
      assert l == rest + [c];
      assert c !in rest;
      SubsetOfList(a - {c}, rest);
      if c in a { assert |a - {c}| == |a| - 1; } else { assert a - {c} == a; }
    }
  }

  // ------------------------------------------------------------ k-ary trees

  function KaryParent(degree: nat, node: nat): int
    requires degree > 0
  {
    if node != 0 then (node - 1) / degree else -1
  }

  /** shmemc_get_children_info: the children are a range, empty ranges are given as -1, -1. */
  method ChildrenInfo(treeSize: nat, degree: nat, node: nat) returns (num: nat, begin: int, end: int)
    requires degree > 0 && node < treeSize
    ensures num == if begin == -1 then 0 else end - begin
    ensures begin == -1 <==> end == -1
    ensures forall c: nat :: begin <= c < end <==> 1 <= c < treeSize && KaryParent(degree, c) == node
    ensures begin == -1 ==> KaryKids(treeSize, degree, node) == []
    ensures begin != -1 ==> 0 < begin <= end && KaryKids(treeSize, degree, node) == Range(begin, end)
  {
    begin := node * degree + 1;
    if begin >= treeSize {
      begin, end := -1, -1;
      num := 0;
    } else {
      end := begin + degree;
      if end > treeSize {
        end := treeSize;
      }
      num := end - begin;
    }
    forall c: nat
      ensures begin <= c < end <==> 1 <= c < treeSize && KaryParent(degree, c) == node
    {
      if c > 0 { Quotient(c - 1, degree, node); }
    }
  }

  function Range(lo: nat, hi: nat): (r: seq<nat>)
    ensures |r| == if lo < hi then hi - lo else 0
    ensures forall i :: 0 <= i < |r| ==> r[i] == lo + i
  {
    if lo < hi then seq(hi - lo, i requires 0 <= i => lo + i) else []
  }

  function KaryKids(treeSize: nat, degree: nat, node: nat): seq<nat> {
    var lo := node * degree + 1;
    Range(lo, if lo + degree <= treeSize then lo + degree else treeSize)
  }

  function Kary(treeSize: nat, degree: nat): Tree
    requires degree > 0
  {
    Tree(treeSize, seq(treeSize, i requires 0 <= i => KaryParent(degree, i)),
         seq(treeSize, i requires 0 <= i => KaryKids(treeSize, degree, i)))
  }

  lemma KaryMember(treeSize: nat, degree: nat, p: nat, c: nat)
    requires degree > 0
    ensures c in KaryKids(treeSize, degree, p) <==> 1 <= c < treeSize && KaryParent(degree, c) == p
  {
    if c > 0 { Quotient(c - 1, degree, p); }
    if 1 <= c < treeSize && KaryParent(degree, c) == p {
      assert KaryKids(treeSize, degree, p)[c - (p * degree + 1)] == c;
    }
  }

  /** For every size and degree the ranges partition 1..size-1 and agree with the parent formula. */
  lemma KaryIsTree(treeSize: nat, degree: nat)
    requires treeSize > 0 && degree > 0
    ensures IsTree(Kary(treeSize, degree))
    ensures forall c :: 1 <= c < treeSize ==> Kary(treeSize, degree).parent[c] == (c - 1) / degree
  {
    var t := Kary(treeSize, degree);
    forall c | 1 <= c < treeSize ensures 0 <= t.parent[c] < c && c in t.kids[t.parent[c]] {
      KaryParentBelow(degree, c);
      KaryMember(treeSize, degree, t.parent[c], c);
    }
    forall p, c | 0 <= p < t.n && c in t.kids[p] ensures 1 <= c < t.n && t.parent[c] == p {
      KaryMember(treeSize, degree, p, c);
    }
  }

  lemma KaryParentBelow(degree: nat, c: nat)
    requires degree > 0 && c > 0
    ensures 0 <= KaryParent(degree, c) < c
  {
    var q := (c - 1) / degree;
    Quotient(c - 1, degree, q);
    MulAtLeast(q, degree);
  }

  lemma {:induction false} MulAtLeast(q: nat, d: nat)
    requires d > 0
    ensures q <= q * d
  {
    if q > 0 {
      MulAtLeast(q - 1, d);
      assert q * d == (q - 1) * d + d;
    }
  }

  // --------------------------------------------------------- binomial trees

  predicate Pow2(m: nat) {
    m == 1 || (m > 1 && m % 2 == 0 && Pow2(m / 2))
  }

  /** The weight of the lowest set bit. */
  function LowBit(x: nat): (b: nat)
    requires x > 0
    ensures 0 < b <= x && Pow2(b)
  {
    if x % 2 == 1 then 1 else 2 * LowBit(x / 2)
  }

  /** `x & (x - 1)` clears the lowest set bit and `x & ~(x - 1)` isolates it. */
  lemma {:induction false} LowestBit(x: nat)
    requires x > 0
    ensures And(x, x - 1) == x - LowBit(x)
    ensures AndNot(x, x - 1) == LowBit(x)
  {
    if x % 2 == 1 {
      assert (x - 1) / 2 == x / 2;
      SelfBits(x / 2);
    } else {
      assert (x - 1) / 2 == x / 2 - 1;
      LowestBit(x / 2);
    }
  }

  lemma {:induction false} SelfBits(x: nat)
    ensures And(x, x) == x && AndNot(x, x) == 0
  {
    if x > 0 { SelfBits(x / 2); }
  }

  /** Setting a bit below the lowest set bit adds it, and makes it the lowest. */
  lemma {:induction false} SetBelow(x: nat, m: nat)
    requires Pow2(m) && (x == 0 || m < LowBit(x))
    ensures Or(x, m) == x + m && LowBit(x + m) == m
  {
    if m == 1 {
      assert x % 2 == 0;
      OrZero(x / 2);
    } else {
      assert x % 2 == 0 && (x + m) / 2 == x / 2 + m / 2;
      SetBelow(x / 2, m / 2);
    }
  }

  lemma {:induction false} OrZero(x: nat)
    ensures Or(x, 0) == x
  {
    if x > 0 { OrZero(x / 2); }
  }

  /** Clearing the lowest set bit leaves only higher ones. */
  lemma {:induction false} ClearLowest(x: nat)
    requires x > 0
    ensures x - LowBit(x) == 0 || LowBit(x) < LowBit(x - LowBit(x))
  {
    if x % 2 == 0 {
      assert (x - LowBit(x)) / 2 == x / 2 - LowBit(x / 2);
      ClearLowest(x / 2);
    }
  }

  function BinomialParent(node: nat): int {
    if node == 0 then -1 else And(node, node - 1)
  }

  const TOP_MASK: nat := 0x4000_0000

  /** The highest bit that can be added to a node: 2^30 at the root, half the lowest set bit elsewhere. */
  function FirstMask(node: nat): nat {
    if node == 0 then TOP_MASK else LowBit(node) / 2
  }

  function KidsFrom(treeSize: nat, node: nat, mask: nat): seq<nat> {
    if mask == 0 then []
    else (if node + mask < treeSize then [node + mask] else []) + KidsFrom(treeSize, node, mask / 2)
  }

  /** The mask the walk starts with, as the code computes it. */
  method StartMask(node: nat) returns (mask: nat, ghost bits: nat)
    requires node <= 0x8000_0000
    ensures mask == FirstMask(node) && bits <= 31 && mask < Exp2(bits)
    ensures mask == 0 || (Pow2(mask) && (node == 0 || mask < LowBit(node)))
  {
    Exp2Values();
    bits := 31;
    if node == 0 {
      mask := TOP_MASK;
      TopMask();
    } else {
      mask := AndNot(node, node - 1) / 2;
      LowestBit(node);
    }
  }

  /** shmemc_get_children_info_binomial: walks a mask down and stores each child that exists, the largest first. */
  method ChildrenInfoBinomial(treeSize: nat, node: nat, children: array<nat>) returns (num: nat)
    requires node < treeSize <= 0x8000_0000 && children.Length == 32
    modifies children
    ensures num <= 31 && children[..num] == KidsFrom(treeSize, node, FirstMask(node))
    ensures forall c: nat :: c in children[..num] <==> 1 <= c < treeSize && And(c, c - 1) == node
    ensures forall i, k :: 0 <= i < k < num ==> children[i] > children[k]
  {
    num := 0;
    var mask: nat, bits: nat := StartMask(node);
    ghost var all := KidsFrom(treeSize, node, mask);
    while mask != 0
      invariant mask == 0 || (Pow2(mask) && (node == 0 || mask < LowBit(node)))
      invariant num + bits <= 31 && mask < Exp2(bits)
      invariant children[..num] + KidsFrom(treeSize, node, mask) == all
      decreases mask
    {
      var child := Or(node, mask);
      SetBelow(node, mask);
      ghost var listed := children[..num];
      if child < treeSize {
        children[num] := child;
        num := num + 1;
        assert children[..num] == listed + [child];
      }
      KidsStep(treeSize, node, mask, listed);
      mask := mask / 2;
      bits := bits - 1;
    }
    ListedChildren(treeSize, node, children[..num]);
  }

  lemma ListedChildren(treeSize: nat, node: nat, listed: seq<nat>)
    requires node < treeSize <= 0x8000_0000 && listed == KidsFrom(treeSize, node, FirstMask(node))
    ensures forall c: nat :: c in listed <==> 1 <= c < treeSize && And(c, c - 1) == node
    ensures forall i, k :: 0 <= i < k < |listed| ==> listed[i] > listed[k]
  {
    forall c: nat ensures c in listed <==> 1 <= c < treeSize && And(c, c - 1) == node {
      BinomialMember(treeSize, node, c);
    }
    FirstMaskPow2(node);
    KidsFromFalls(treeSize, node, FirstMask(node));
  }

  lemma KidsStep(treeSize: nat, node: nat, mask: nat, listed: seq<nat>)
    requires mask != 0
    ensures listed + KidsFrom(treeSize, node, mask)
            == (if node + mask < treeSize then listed + [node + mask] else listed) + KidsFrom(treeSize, node, mask / 2)
  {
    var rest := KidsFrom(treeSize, node, mask / 2);
    assert listed + ([node + mask] + rest) == listed + [node + mask] + rest;
    assert listed + ([] + rest) == listed + rest;
  }

  lemma Exp2Values()
    ensures Exp2(30) == TOP_MASK && Exp2(31) == 0x8000_0000
  {
    assert Exp2(10) == 0x400;
    assert Exp2(20) == 0x10_0000;
    assert Exp2(30) == TOP_MASK;
  }

  lemma {:induction false} Exp2IsPow2(k: nat)
    ensures Pow2(Exp2(k))
  {
    if k > 0 { Exp2IsPow2(k - 1); }
  }

  lemma TopMask()
    ensures Pow2(TOP_MASK)
  {
    Exp2Values();
    Exp2IsPow2(30);
  }

  /** Members of a child list are exactly the existing nodes that add one bit up to the mask. */
  lemma {:induction false} KidsFromMembers(treeSize: nat, node: nat, mask: nat, c: nat)
    requires mask == 0 || Pow2(mask)
    ensures c in KidsFrom(treeSize, node, mask) <==> node < c < treeSize && Pow2(c - node) && c - node <= mask
  {
    if mask != 0 {
      if mask == 1 { assert KidsFrom(treeSize, node, 0) == []; }
      KidsFromMembers(treeSize, node, mask / 2, c);
      if node < c < node + mask && Pow2(c - node) { Pow2Gap(c - node, mask); }
    }
  }

  /** No power of two lies strictly between m/2 and m. */
  lemma {:induction false} Pow2Gap(k: nat, m: nat)
    requires Pow2(k) && Pow2(m) && k < m
    ensures k <= m / 2
  {
    if k > 1 { Pow2Gap(k / 2, m / 2); }
  }

  lemma {:induction false} KidsFromFalls(treeSize: nat, node: nat, mask: nat)
    requires mask == 0 || Pow2(mask)
    ensures var kids := KidsFrom(treeSize, node, mask);
            Distinct(kids) && forall i, k :: 0 <= i < k < |kids| ==> kids[i] > kids[k]
  {
    if mask != 0 {
      var rest := KidsFrom(treeSize, node, mask / 2);
      KidsFromFalls(treeSize, node, mask / 2);
      forall i | 0 <= i < |rest| ensures rest[i] < node + mask {
        KidsFromMembers(treeSize, node, mask / 2, rest[i]);
      }
    }
  }

  function Binomial(treeSize: nat): Tree {
    Tree(treeSize, seq(treeSize, i requires 0 <= i => BinomialParent(i)),
         seq(treeSize, i requires 0 <= i => KidsFrom(treeSize, i, FirstMask(i))))
  }

  lemma FirstMaskPow2(node: nat)
    ensures FirstMask(node) == 0 || Pow2(FirstMask(node))
  {
    if node == 0 { TopMask(); }
  }

  lemma BinomialMember(treeSize: nat, p: nat, c: nat)
    requires p < treeSize <= 0x8000_0000
    ensures c in KidsFrom(treeSize, p, FirstMask(p)) <==> 1 <= c < treeSize && BinomialParent(c) == p
  {
    FirstMaskPow2(p);
    KidsFromMembers(treeSize, p, FirstMask(p), c);
    if c > 0 {
      LowestBit(c);
      ClearLowest(c);
    }
    if p < c < treeSize && Pow2(c - p) && c - p <= FirstMask(p) {
      SetBelow(p, c - p);
    }
    if 1 <= c < treeSize && BinomialParent(c) == p {
      assert c - p == LowBit(c);
      if p == 0 {
        TopMask();
        if c > TOP_MASK { Pow2Gap(TOP_MASK, c); }
      } else {
        Pow2Gap(LowBit(c), LowBit(p));
      }
    }
  }

  ghost predicate NodeInTree(t: Tree, p: int)
    requires |t.parent| == |t.kids| == t.n
  {
    0 <= p < t.n ==> (if p == 0 then t.parent[0] == -1 else 0 <= t.parent[p] < p) && Distinct(t.kids[p])
  }

  ghost predicate EdgeInTree(t: Tree, p: int, c: int)
    requires |t.parent| == |t.kids| == t.n
  {
    0 <= p < t.n && 0 <= c ==> (c in t.kids[p] <==> 1 <= c < t.n && t.parent[c] == p)
  }

  lemma NodesAndEdges(t: Tree)
    requires t.n > 0 && |t.parent| == |t.kids| == t.n
    requires forall p {:trigger NodeInTree(t, p)} :: NodeInTree(t, p)
    requires forall p, c {:trigger EdgeInTree(t, p, c)} :: EdgeInTree(t, p, c)
    ensures IsTree(t)
  {
    assert NodeInTree(t, 0);
    NodesFine(t);
    forall c | 1 <= c < t.n ensures c in t.kids[t.parent[c]] { Listed(t, c); }
    EdgesFine(t);
  }

  lemma NodesFine(t: Tree)
    requires |t.parent| == |t.kids| == t.n
    requires forall p {:trigger NodeInTree(t, p)} :: NodeInTree(t, p)
    ensures forall c :: 1 <= c < t.n ==> 0 <= t.parent[c] < c
    ensures forall p :: 0 <= p < t.n ==> Distinct(t.kids[p])
  {
    forall p | 0 <= p < t.n ensures (p > 0 ==> 0 <= t.parent[p] < p) && Distinct(t.kids[p]) { assert NodeInTree(t, p); }
  }

  lemma EdgesFine(t: Tree)
    requires |t.parent| == |t.kids| == t.n
    requires forall p, c {:trigger EdgeInTree(t, p, c)} :: EdgeInTree(t, p, c)
    ensures forall p, c {:trigger c in t.kids[p]} :: 0 <= p < t.n && c in t.kids[p] ==> 1 <= c < t.n && t.parent[c] == p
  {
    forall p, c {:trigger c in t.kids[p]} | 0 <= p < t.n && c in t.kids[p] ensures 1 <= c < t.n && t.parent[c] == p {
      assert EdgeInTree(t, p, c);
    }
  }

  lemma Listed(t: Tree, c: nat)
    requires |t.parent| == |t.kids| == t.n && 1 <= c < t.n && 0 <= t.parent[c] < t.n
    requires EdgeInTree(t, t.parent[c], c)
    ensures c in t.kids[t.parent[c]]
  {
  }

  lemma BinomialNode(treeSize: nat, p: int)
    requires treeSize <= 0x8000_0000
    ensures NodeInTree(Binomial(treeSize), p)
  {
    if 0 <= p < treeSize {
      if p > 0 { LowestBit(p); }
      FirstMaskPow2(p);
      KidsFromFalls(treeSize, p, FirstMask(p));
    }
  }

  lemma BinomialEdge(treeSize: nat, p: int, c: int)
    requires treeSize <= 0x8000_0000
    ensures EdgeInTree(Binomial(treeSize), p, c)
  {
    if 0 <= p < treeSize && 0 <= c { BinomialMember(treeSize, p, c); }
  }

  /** For every size a C int can hold, the child lists the mask loop builds are disjoint, cover
      1..size-1, and agree with get_parent_binomial. */
  lemma BinomialIsTree(treeSize: nat)
    requires 0 < treeSize <= 0x8000_0000
    ensures IsTree(Binomial(treeSize))
  {
    var t := Binomial(treeSize);
    forall p ensures NodeInTree(t, p) { BinomialNode(treeSize, p); }
    forall p, c ensures EdgeInTree(t, p, c) { BinomialEdge(treeSize, p, c); }
    NodesAndEdges(t);
  }

  // -------------------------------------------- active sets and the root swap

  /** The broadcast root and tree node 0 change places. */
  function SwapRoot(root: nat, i: int): int {
    if i == root then 0 else if i == 0 then root else i
  }

  /** The PE number of active-set index i, and the index of a PE, as the code computes them. */
  function PeOf(start: nat, logStride: nat, i: nat): nat { start + i * Exp2(logStride) }
  function IndexOf(start: nat, logStride: nat, pe: nat): int
    requires start <= pe
  {
    (pe - start) / Exp2(logStride)
  }

  lemma IndexRoundTrip(start: nat, logStride: nat, i: nat)
    ensures IndexOf(start, logStride, PeOf(start, logStride, i)) == i
  {
    Quotient(i * Exp2(logStride), Exp2(logStride), i);
  }

  /** Node v of the virtual tree is played by this PE. */
  function PlayedBy(start: nat, logStride: nat, root: nat, v: nat): nat
  {
    PeOf(start, logStride, SwapRoot(root, v))
  }

  /** The PE with index i in the active set is start + i * 2^logStride.  A PE finds its own node by the swap; the
      address a parent sends to (`child == root ? 0 : child`) is the PE that plays the child; and the address that PE
      acks (its parent, swapped) is the sender. */
  lemma AckGoesToSender(t: Tree, start: nat, logStride: nat, root: nat, c: nat)
    requires IsTree(t) && root < t.n && 1 <= c < t.n
    ensures var p := t.parent[c];
            var sender := start + (if p == 0 then root else if p == root then 0 else p) * Exp2(logStride);
            var dst := start + (if c == root then 0 else c) * Exp2(logStride);
            && sender == PlayedBy(start, logStride, root, p) && dst == PlayedBy(start, logStride, root, c)
            && SwapRoot(root, IndexOf(start, logStride, sender)) == p
            && SwapRoot(root, IndexOf(start, logStride, dst)) == c
            && sender == start + (if p == root then 0 else if p == 0 then root else p) * Exp2(logStride)
  {
    IndexRoundTrip(start, logStride, SwapRoot(root, t.parent[c]));
    IndexRoundTrip(start, logStride, SwapRoot(root, c));
  }

  /** Different nodes are played by different PEs, and every PE of the active set plays one. */
  lemma RolesAreBijective(n: nat, start: nat, logStride: nat, root: nat, u: nat, v: nat)
    requires root < n && u < n && v < n
    ensures PlayedBy(start, logStride, root, u) == PlayedBy(start, logStride, root, v) ==> u == v
    ensures PlayedBy(start, logStride, root, SwapRoot(root, u)) == start + u * Exp2(logStride)
  {
    IndexRoundTrip(start, logStride, SwapRoot(root, u));
    IndexRoundTrip(start, logStride, SwapRoot(root, v));
  }

  /** The PEs that play the nodes of an active set of size n are exactly those whose distance from the start is a
      multiple of the stride, below n strides. */
  lemma ActiveSet(n: nat, start: nat, logStride: nat, root: nat, pe: nat)
    requires root < n
    ensures (exists v: nat :: v < n && PlayedBy(start, logStride, root, v) == pe)
            <==> start <= pe < start + n * Exp2(logStride) && (pe - start) % Exp2(logStride) == 0
  {
    var step := Exp2(logStride);
    if v: nat :| v < n && PlayedBy(start, logStride, root, v) == pe {
      StrideMember(SwapRoot(root, v), n, step);
    }
    if start <= pe < start + n * step && (pe - start) % step == 0 {
      var i := (pe - start) / step;
      StrideIndex(pe - start, n, step);
      assert PlayedBy(start, logStride, root, SwapRoot(root, i)) == pe;
    }
  }

  lemma StrideMember(i: nat, n: nat, step: nat)
    requires i < n && step > 0
    ensures i * step < n * step && i * step % step == 0
  {
    Quotient(i * step, step, i);
    assert (i + 1) * step <= n * step;
  }

  lemma StrideIndex(x: nat, n: nat, step: nat)
    requires step > 0 && x % step == 0 && x < n * step
    ensures x == x / step * step && x / step < n
  {
    assert x == x / step * step + x % step;
    Monotone(n, x / step, step);
  }
}
