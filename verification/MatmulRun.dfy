/** The rotating-stripe multiply on all PEs: each step multiplies by the stripe at hand while the next one
    is fetched from the neighbour into the other buffer, and a barrier separates the steps. */
module MatmulRun {
  import opened Bits
  import opened Runs
  import opened Matmul
  import B = BarrierSpec

  datatype Pc =
    | Issue       // about to issue the non-blocking get of the neighbour's stripe
    | Mul         // about to call mmul
    | Swap        // about to exchange the buffer pointers
    | Sync        // waits for the get (the quiet in the barrier), then enters the barrier
    | Inside
    | Finished

  /** `buf[p]` are PE p's two stripe buffers and `cur[p]` says which one its pointer Bs names;
      `pending[p]` is the buffer index a get in progress reads at the neighbour, or -1. */
  datatype State = State(
    n: nat, big: nat, ns: nat,
    a: (nat, nat) -> int, b: (nat, nat) -> int,
    stripes: seq<seq<int>>,
    buf: seq<seq<seq<int>>>,
    cs: seq<seq<int>>,
    cur: seq<int>,
    pending: seq<int>,
    pc: seq<Pc>,
    calls: B.Calls)

  /** Horizontal stripe p of A and vertical stripe j of B, as they lie in memory. */
  function StripeA(a: (nat, nat) -> int, big: nat, ns: nat, p: nat): (r: seq<int>)
    requires big > 0
    ensures |r| == ns * big
  {
    seq(ns * big, x requires 0 <= x => a(Idx(p, ns, Row(x, big)), Column(x, big)))
  }
  function StripeB(b: (nat, nat) -> int, big: nat, ns: nat, j: nat): (r: seq<int>)
    requires ns > 0
    ensures |r| == big * ns
  {
    seq(big * ns, x requires 0 <= x => b(x / ns, j * ns + x % ns))
  }

  /** The block of columns, of width ns, that cell x of a matrix of width big is in. */
  function BlockOf(x: nat, big: nat, ns: nat): nat
    requires big > 0 && ns > 0
  {
    Column(x, big) / ns
  }

  /** Row i of A times column j of B. */
  function Entry(a: (nat, nat) -> int, b: (nat, nat) -> int, i: nat, j: nat, count: nat): int {
    if count == 0 then 0 else Entry(a, b, i, j, count - 1) + a(i, count - 1) * b(count - 1, j)
  }

  /** Multiplying two stripes as they lie in memory gives entries of the product. */
  lemma {:induction false} DotIsEntry(a: (nat, nat) -> int, b: (nat, nat) -> int, big: nat, ns: nat, p: nat,
                                      block: nat, row: nat, col: nat, count: nat)
    requires big > 0 && ns > 0 && row < ns && col < ns && count <= big
    ensures forall k :: 0 <= k < count ==> Idx(row, big, k) < ns * big && Idx(k, ns, col) < big * ns
    ensures Dot(StripeA(a, big, ns, p), big, StripeB(b, big, ns, block), ns, row, col, count)
            == Entry(a, b, Idx(p, ns, row), Idx(block, ns, col), count)
  {
    if count > 0 {
      DotIsEntry(a, b, big, ns, p, block, row, col, count - 1);
      IdxBound(row, ns, big, count - 1);
      IdxBound(count - 1, big, ns, col);
      DivMod(row, big, count - 1);
      DivMod(count - 1, ns, col);
    }
  }

  /** The step at which PE p multiplies by block c. */
  function StepOf(n: nat, p: nat, c: int): int { if c >= p then c - p else c - p + n }

  ghost predicate Shape(s: State) {
    && s.n > 0 && s.ns > 0 && s.ns == s.big / s.n
    && |s.stripes| == |s.buf| == |s.cs| == |s.cur| == |s.pending| == |s.pc| == s.n
    && |s.calls.entered| == |s.calls.left| == s.n
    && (forall p :: 0 <= p < s.n ==> 0 <= s.cur[p] <= 1 && -1 <= s.pending[p] <= 1 && |s.buf[p]| == 2)
    && (forall p :: 0 <= p < s.n ==> |s.stripes[p]| == |s.cs[p]| == s.ns * s.big)
    && (forall p, i :: 0 <= p < s.n && 0 <= i < 2 ==> |s.buf[p][i]| == s.big * s.ns)
  }

  ghost predicate Initial(s: State) {
    && Shape(s) && B.Start(s.calls) && s.big > 0
    && (forall p :: 0 <= p < s.n ==>
         s.stripes[p] == StripeA(s.a, s.big, s.ns, p) && s.buf[p][0] == StripeB(s.b, s.big, s.ns, p))
    && (forall p, x :: 0 <= p < s.n && 0 <= x < |s.cs[p]| ==> s.cs[p][x] == 0)
    && (forall p :: 0 <= p < s.n ==> s.cur[p] == 0 && s.pending[p] == -1 && s.pc[p] == Issue)
  }

  /** mmul(Ns, N, Ns, N, As, Ns, Bs, N, Cs + block_num * Ns) */
  function Call(big: nat, ns: nat, block: nat): Dims { Dims(ns, big, ns, big, ns, big, block * ns) }

  lemma IdxBound(i: nat, r: nat, d: nat, k: nat)
    requires i < r && k < d
    ensures Idx(i, d, k) < r * d
  {
    assert (i + 1) * d <= r * d;
    assert (i + 1) * d == i * d + d;
  }

  lemma CallFits(n: nat, big: nat, ns: nat, block: nat)
    requires n > 0 && ns > 0 && ns == big / n && block < n
    ensures Fits(Call(big, ns, block), ns * big, big * ns, ns * big)
  {
    var d := Call(big, ns, block);
    StripesFit(n, big, ns, block);
    forall i, k | 0 <= i < ns && 0 <= k < big ensures Idx(i, big, k) < ns * big { IdxBound(i, ns, big, k); }
    forall k, j | 0 <= k < big && 0 <= j < ns ensures Idx(k, ns, j) < big * ns { IdxBound(k, big, ns, j); }
  }

  /** All stripes lie inside the matrix, whether or not the number of PEs divides its size. */
  lemma StripesFit(n: nat, big: nat, ns: nat, block: nat)
    requires n > 0 && ns > 0 && ns == big / n && block < n
    ensures block * ns + ns <= n * ns <= big
  {
    Quotient(big, n, ns);
    assert (block + 1) * ns <= n * ns;
    assert (block + 1) * ns == block * ns + ns;
    assert ns * n == n * ns;
  }

  datatype Event = Run(p: nat) | Complete(p: nat)

  ghost predicate Enabled(s: State, e: Event)
    requires Shape(s)
  {
    match e
    case Run(p) =>
      p < s.n &&
      (match s.pc[p]
       case Sync => s.pending[p] == -1
       case Inside => B.MayLeave(s.calls, p)
       case Finished => false
       case _ => s.calls.left[p] < s.n)
    case Complete(p) => p < s.n && s.pending[p] != -1
  }

  ghost function MulStep(s: State, p: nat): (c: seq<int>)
    requires Shape(s) && p < s.n && s.calls.left[p] < s.n
    ensures |c| == s.ns * s.big
  {
    AheadIsModulo(s.n, p, s.calls.left[p]);
    CallFits(s.n, s.big, s.ns, Ahead(s.n, p, s.calls.left[p]));
    MulAdd(Call(s.big, s.ns, Ahead(s.n, p, s.calls.left[p])), s.stripes[p], s.buf[p][s.cur[p]], s.cs[p])
  }

  ghost function RunStep(s: State, p: nat): State
    requires Shape(s) && Enabled(s, Run(p))
  {
    match s.pc[p]
    case Issue => s.(pending := s.pending[p := s.cur[p]], pc := s.pc[p := Mul])
    case Mul => s.(cs := s.cs[p := MulStep(s, p)], pc := s.pc[p := Swap])
    case Swap => s.(cur := s.cur[p := 1 - s.cur[p]], pc := s.pc[p := Sync])
    case Sync => s.(pc := s.pc[p := Inside], calls := s.calls.(entered := s.calls.entered[p := s.calls.entered[p] + 1]))
    case Inside =>
      s.(pc := s.pc[p := if s.calls.left[p] + 1 < s.n then Issue else Finished],
         calls := s.calls.(left := s.calls.left[p := s.calls.left[p] + 1]))
  }

  ghost function Apply(s: State, e: Event): (t: State)
    requires Shape(s) && Enabled(s, e)
    ensures Shape(t)
  {
    match e
    case Run(p) => RunStep(s, p)
    case Complete(p) =>
      var q := Ahead(s.n, p, 1);
      var i := s.pending[p];
      s.(pending := s.pending[p := -1], buf := s.buf[p := s.buf[p][1 - i := s.buf[q][i]]])
  }

  ghost predicate Next(s: State, t: State) {
    Shape(s) && exists e :: Enabled(s, e) && t == Apply(s, e)
  }

  // ------------------------------------------------------------ invariant

  ghost function Stripe(s: State, j: int): seq<int>
    requires Shape(s)
  {
    if j >= 0 then StripeB(s.b, s.big, s.ns, j) else []
  }

  function Parity(x: nat): int { x % 2 }

  /** Multiplications finished by PE p. */
  ghost function Multiplied(s: State, p: nat): nat requires Shape(s) && p < s.n {
    s.calls.left[p] + if s.pc[p].Swap? || s.pc[p].Sync? || s.pc[p].Inside? then 1 else 0
  }

  /** The product entry that cell x of PE p's stripe is to hold; columns beyond the last stripe stay zero. */
  ghost function Product(s: State, p: nat, x: nat): int
    requires Shape(s) && s.big > 0
  {
    if BlockOf(x, s.big, s.ns) < s.n then Entry(s.a, s.b, Idx(p, s.ns, Row(x, s.big)), Column(x, s.big), s.big) else 0
  }

  ghost predicate PeOk(s: State, p: int)
    requires Shape(s)
  {
    0 <= p < s.n ==>
      var k := s.calls.left[p];
      && k <= s.n && (s.pc[p].Finished? <==> k == s.n)
      && s.calls.entered[p] == k + (if s.pc[p].Inside? then 1 else 0)
      && s.cur[p] == (if s.pc[p].Sync? || s.pc[p].Inside? then 1 - Parity(k) else Parity(k))
      && (s.pending[p] == -1 || s.pending[p] == Parity(k))
      && (s.pc[p].Issue? || s.pc[p].Inside? || s.pc[p].Finished? ==> s.pending[p] == -1)
      && s.stripes[p] == StripeA(s.a, s.big, s.ns, p)
      && s.buf[p][Parity(k)] == Stripe(s, Ahead(s.n, p, k))
      && (!s.pc[p].Issue? && !s.pc[p].Finished? && s.pending[p] == -1 ==>
           s.buf[p][1 - Parity(k)] == Stripe(s, Ahead(s.n, p, k + 1)))
  }

  ghost predicate CellOk(s: State, p: int, x: int)
    requires Shape(s) && s.big > 0
  {
    0 <= p < s.n && 0 <= x < s.ns * s.big ==>
      s.cs[p][x] == if StepOf(s.n, p, BlockOf(x, s.big, s.ns)) < Multiplied(s, p) then Product(s, p, x) else 0
  }

  ghost predicate Inv(s: State) {
    && Shape(s) && s.big > 0 && B.Good(s.calls)
    && (forall p {:trigger PeOk(s, p)} :: PeOk(s, p))
    && (forall p, x {:trigger CellOk(s, p, x)} :: CellOk(s, p, x))
  }

  lemma InitialInv(s: State)
    requires Initial(s)
    ensures Inv(s)
  {
    forall p ensures PeOk(s, p) {}
    forall p, x ensures CellOk(s, p, x) {
      if 0 <= p < s.n && 0 <= x < s.ns * s.big { BlockNotNegative(s, x); }
    }
  }

  lemma BlockNotNegative(s: State, x: nat)
    requires Shape(s) && s.big > 0
    ensures BlockOf(x, s.big, s.ns) >= 0
  {
  }

  /** Cells depend only on the stripe of C and on how many multiplications are finished. */
  lemma CellsKeep(s: State, t: State)
    requires Inv(s) && Shape(t) && t.n == s.n && t.big == s.big && t.ns == s.ns && t.a == s.a && t.b == s.b
             && t.cs == s.cs
    requires forall q: nat :: q < s.n ==> Multiplied(t, q) == Multiplied(s, q)
    ensures forall q, x {:trigger CellOk(t, q, x)} :: CellOk(t, q, x)
  {
    forall q, x ensures CellOk(t, q, x) { assert CellOk(s, q, x); }
  }

  lemma PlainPe(s: State, p: nat, q: int)
    requires Inv(s) && Enabled(s, Run(p)) && !s.pc[p].Mul?
    ensures PeOk(Apply(s, Run(p)), q)
  {
    assert PeOk(s, q);
    if q != p { SamePe(s, Apply(s, Run(p)), q); }
    else if s.pc[p].Inside? { LeavePe(s, p); }
    else { LocalPe(s, p); }
  }

  lemma SamePe(s: State, t: State, q: int)
    requires Shape(s) && Shape(t) && PeOk(s, q) && t.n == s.n && t.big == s.big && t.ns == s.ns && t.a == s.a
             && t.b == s.b
    requires 0 <= q < s.n ==>
               t.pc[q] == s.pc[q] && t.cur[q] == s.cur[q] && t.pending[q] == s.pending[q] && t.buf[q] == s.buf[q]
               && t.stripes[q] == s.stripes[q] && t.calls.left[q] == s.calls.left[q]
               && t.calls.entered[q] == s.calls.entered[q]
    ensures PeOk(t, q)
  {
  }

  lemma LeavePe(s: State, p: nat)
    requires Inv(s) && Enabled(s, Run(p)) && s.pc[p].Inside?
    ensures PeOk(Apply(s, Run(p)), p)
  {
    assert PeOk(s, p);
    LeftPe(s, Apply(s, Run(p)), p);
  }

  lemma ParityNext(k: nat)
    ensures Parity(k + 1) == 1 - Parity(k) && 0 <= Parity(k) <= 1
  {
  }

  lemma LeftPe(s: State, t: State, p: nat)
    requires Shape(s) && Shape(t) && p < s.n == t.n && PeOk(s, p) && s.pc[p].Inside?
    requires t.big == s.big && t.ns == s.ns && t.a == s.a && t.b == s.b
    requires t.cur == s.cur && t.pending == s.pending && t.buf == s.buf && t.stripes == s.stripes
    requires t.calls.left[p] == s.calls.left[p] + 1 && t.calls.entered == s.calls.entered
    requires t.pc[p] == if s.calls.left[p] + 1 < s.n then Issue else Finished
    ensures PeOk(t, p)
  {
    ParityNext(s.calls.left[p]);
  }

  lemma LocalPe(s: State, p: nat)
    requires Inv(s) && Enabled(s, Run(p)) && !s.pc[p].Mul? && !s.pc[p].Inside?
    ensures PeOk(Apply(s, Run(p)), p)
  {
    assert PeOk(s, p);
  }

  lemma KeepPlain(s: State, p: nat)
    requires Inv(s) && Enabled(s, Run(p)) && !s.pc[p].Mul?
    ensures Inv(Apply(s, Run(p)))
  {
    var t := Apply(s, Run(p));
    KeepGood(s, p);
    CellsKeep(s, t);
    forall q ensures PeOk(t, q) { PlainPe(s, p, q); }
  }

  lemma KeepGood(s: State, p: nat)
    requires Inv(s) && Enabled(s, Run(p))
    ensures B.Good(Apply(s, Run(p)).calls)
  {
    assert PeOk(s, p);
  }

  /** The call adds the entries of exactly one block of columns. */
  lemma BlockOfColumn(big: nat, ns: nat, block: nat, x: nat)
    requires big > 0 && ns > 0 && x < ns * big
    ensures InBlock(Call(big, ns, block), x) <==> BlockOf(x, big, ns) == block
  {
    Quotient(Column(x, big), ns, block);
    RowBelow(x, ns, big);
  }

  lemma RowBelow(x: nat, r: nat, d: nat)
    requires d > 0 && x < r * d
    ensures x / d < r
  {
    Quotient(x, d, x / d);
    Monotone(r, x / d, d);
  }

  lemma MulCell(s: State, p: nat, x: nat)
    requires Inv(s) && Enabled(s, Run(p)) && s.pc[p].Mul? && x < s.ns * s.big
    ensures CellOk(Apply(s, Run(p)), p, x)
  {
    var t := Apply(s, Run(p));
    var k := s.calls.left[p];
    var block := Ahead(s.n, p, k);
    assert PeOk(s, p) && CellOk(s, p, x);
    AheadIsModulo(s.n, p, k);
    CallFits(s.n, s.big, s.ns, block);
    BlockOfColumn(s.big, s.ns, block, x);
    BlockNotNegative(s, x);
    RowBelow(x, s.ns, s.big);
    MulEntry(s, p, x, block);
  }

  lemma MulEntry(s: State, p: nat, x: nat, block: nat)
    requires Inv(s) && Enabled(s, Run(p)) && s.pc[p].Mul? && x < s.ns * s.big
             && block == Ahead(s.n, p, s.calls.left[p]) < s.n
    ensures MulStep(s, p)[x] == s.cs[p][x] + if BlockOf(x, s.big, s.ns) == block then Product(s, p, x) else 0
  {
    assert PeOk(s, p);
    CallFits(s.n, s.big, s.ns, block);
    StripesCell(Call(s.big, s.ns, block), s.stripes[p], s.buf[p][s.cur[p]], s.cs[p], x, s.a, s.b, s.big, s.ns, p,
      block);
  }

  /** One call on two stripes, seen from one cell of C. */
  lemma StripesCell(d: Dims, sa: seq<int>, sb: seq<int>, c: seq<int>, x: nat,
                    a: (nat, nat) -> int, b: (nat, nat) -> int, big: nat, ns: nat, p: nat, block: nat)
    requires Fits(d, |sa|, |sb|, |c|) && x < |c| == ns * big && big > 0 && ns > 0
    requires d == Call(big, ns, block) && sa == StripeA(a, big, ns, p) && sb == StripeB(b, big, ns, block)
    ensures MulAdd(d, sa, sb, c)[x] == c[x] + if BlockOf(x, big, ns) == block
            then Entry(a, b, Idx(p, ns, Row(x, big)), Column(x, big), big) else 0
  {
    MulAddAt(d, sa, sb, c, x);
    BlockOfColumn(big, ns, block, x);
    if BlockOf(x, big, ns) == block {
      Split(Column(x, big), ns);
      DotInBlock(a, b, big, ns, p, block, x, Column(Column(x, big), ns));
    }
  }

  lemma DotInBlock(a: (nat, nat) -> int, b: (nat, nat) -> int, big: nat, ns: nat, p: nat, block: nat, x: nat, col: nat)
    requires x < ns * big && big > 0 && ns > 0 && col < ns && Column(x, big) == Idx(block, ns, col)
    ensures Row(x, big) < ns
    ensures forall k :: 0 <= k < big ==> Idx(Row(x, big), big, k) < ns * big && Idx(k, ns, col) < big * ns
    ensures Dot(StripeA(a, big, ns, p), big, StripeB(b, big, ns, block), ns, Row(x, big), col, big)
            == Entry(a, b, Idx(p, ns, Row(x, big)), Column(x, big), big)
  {
    RowBelow(x, ns, big);
    DotIsEntry(a, b, big, ns, p, block, Row(x, big), col, big);
  }

  lemma KeepMul(s: State, p: nat)
    requires Inv(s) && Enabled(s, Run(p)) && s.pc[p].Mul?
    ensures Inv(Apply(s, Run(p)))
  {
    var t := Apply(s, Run(p));
    forall q ensures PeOk(t, q) { MulPe(s, p, q); }
    forall q, x ensures CellOk(t, q, x) {
      if q == p && 0 <= x < s.ns * s.big { MulCell(s, p, x); } else { OtherCell(s, p, q, x); }
    }
  }

  lemma MulPe(s: State, p: nat, q: int)
    requires Inv(s) && Enabled(s, Run(p)) && s.pc[p].Mul?
    ensures PeOk(Apply(s, Run(p)), q)
  {
    assert PeOk(s, p) && PeOk(s, q);
  }

  lemma OtherCell(s: State, p: nat, q: int, x: int)
    requires Inv(s) && Enabled(s, Run(p)) && s.pc[p].Mul? && (q != p || !(0 <= x < s.ns * s.big))
    ensures CellOk(Apply(s, Run(p)), q, x)
  {
    assert CellOk(s, q, x);
  }

  /** What a get reads: the neighbour is in the same step, or has not left the barrier before it,
      and in either case the buffer holds the next stripe to the right. */
  lemma NeighbourStripe(s: State, p: nat)
    requires Inv(s) && Enabled(s, Complete(p))
    ensures var q, i := Ahead(s.n, p, 1), s.pending[p];
            i == Parity(s.calls.left[p]) && s.buf[q][i] == Stripe(s, Ahead(s.n, p, s.calls.left[p] + 1))
  {
    var q := Ahead(s.n, p, 1);
    assert PeOk(s, p) && PeOk(s, q);
    var k := s.calls.left[p];
    if s.calls.left[q] == k {
      assert Ahead(s.n, q, k) == Ahead(s.n, p, k + 1);
    } else {
      assert s.calls.left[q] + 1 == k && k > 0;
      ParityNext(k - 1);
      assert Ahead(s.n, q, k) == Ahead(s.n, p, k + 1);
    }
  }

  lemma KeepComplete(s: State, p: nat)
    requires Inv(s) && Enabled(s, Complete(p))
    ensures Inv(Apply(s, Complete(p)))
  {
    var t := Apply(s, Complete(p));
    CellsKeep(s, t);
    forall q ensures PeOk(t, q) { CompletePe(s, p, q); }
  }

  lemma CompletePe(s: State, p: nat, q: int)
    requires Inv(s) && Enabled(s, Complete(p))
    ensures PeOk(Apply(s, Complete(p)), q)
  {
    NeighbourStripe(s, p);
    assert PeOk(s, p) && PeOk(s, q);
  }

  lemma StepKeepsInv(s: State, t: State)
    requires Inv(s) && Next(s, t)
    ensures Inv(t)
  {
    var e :| Enabled(s, e) && t == Apply(s, e);
    match e
    case Complete(p) => KeepComplete(s, p);
    case Run(p) =>
      if s.pc[p].Mul? { KeepMul(s, p); } else { KeepPlain(s, p); }
  }

  ghost predicate Reached(s: State) { Reachable(Initial, Next, s) }

  lemma ReachedInv(s: State)
    requires Reached(s)
    ensures Inv(s)
  {
    forall t | Initial(t) ensures Inv(t) { InitialInv(t); }
    forall t, u | Inv(t) && Next(t, u) ensures Inv(u) { StepKeepsInv(t, u); }
    ReachableInvariant(Initial, Next, Inv, s);
  }

  // -------------------------------------------------------------- results

  /** When PE p multiplies in its k-th step its buffer holds vertical stripe (p + k) mod n. */
  lemma HoldsRotatedStripe(s: State, p: nat)
    requires Reached(s) && Shape(s) && p < s.n && s.pc[p].Mul?
    ensures s.calls.left[p] < s.n && s.buf[p][s.cur[p]] == Stripe(s, (p + s.calls.left[p]) % s.n)
  {
    ReachedInv(s);
    assert PeOk(s, p);
    RotatedStripe(s, p);
  }

  lemma RotatedStripe(s: State, p: nat)
    requires Shape(s) && p < s.n && s.pc[p].Mul? && PeOk(s, p)
    ensures s.calls.left[p] < s.n && s.buf[p][s.cur[p]] == Stripe(s, (p + s.calls.left[p]) % s.n)
  {
    AheadIsModulo(s.n, p, s.calls.left[p]);
  }

  /** Nobody gets stuck: while some PE is not finished some step can be taken. */
  lemma NoDeadlock(s: State, p: nat)
    requires Reached(s) && Shape(s) && p < s.n && s.pc[p] != Finished
    ensures exists t :: Next(s, t)
  {
    ReachedInv(s);
    var q := B.Slowest(s.calls, s.n);
    assert PeOk(s, q) && PeOk(s, p);
    var e := if s.pc[q].Sync? && s.pending[q] != -1 then Complete(q) else Run(q);
    assert Enabled(s, e);
    assert Next(s, Apply(s, e));
  }

  /** What PE p still has to do: seven units a round, and one for a get in progress. */
  function Weight(n: nat, left: nat, pc: Pc, pending: int): nat {
    var rounds := if left < n then 7 * (n - left) else 0;
    var done := match pc
      case Issue => 0
      case Mul => 2
      case Swap => 3
      case Sync => 4
      case Inside => 5
      case Finished => 0;
    (if done <= rounds then rounds - done else 0) + (if pending == -1 then 0 else 1)
  }

  ghost function Weights(s: State): seq<nat>
    requires Shape(s)
  {
    seq(s.n, p requires 0 <= p < s.n && Shape(s) => WeightOf(s, p))
  }

  ghost function Remaining(s: State): nat {
    if Shape(s) then Sum(Weights(s)) else 0
  }

  lemma StepLowers(s: State, t: State)
    requires Inv(s) && Next(s, t)
    ensures Remaining(t) < Remaining(s)
  {
    var e :| Enabled(s, e) && t == Apply(s, e);
    var p := e.p;
    if e.Run? { RunLowers(s, p); }
    assert Weights(t) == Weights(s)[p := WeightOf(t, p)];
    SumUpdate(Weights(s), p, WeightOf(t, p));
  }

  ghost function WeightOf(s: State, p: nat): nat
    requires Shape(s) && p < s.n
  {
    Weight(s.n, s.calls.left[p], s.pc[p], s.pending[p])
  }

  lemma RunLowers(s: State, p: nat)
    requires Inv(s) && Enabled(s, Run(p))
    ensures WeightOf(Apply(s, Run(p)), p) < WeightOf(s, p)
  {
    assert PeOk(s, p);
  }

  /** Every schedule ends after boundedly many steps, with all PEs finished. */
  lemma Completes(path: seq<State>)
    requires IsPath(Next, path) && Reached(path[0])
    ensures |path| - 1 <= Remaining(path[0])
    ensures var s := path[|path| - 1];
            Reached(s) && Shape(s) && ((forall t :: !Next(s, t)) ==> forall p :: 0 <= p < s.n ==> s.pc[p] == Finished)
  {
    forall s, t {:trigger Next(s, t)} | Reached(s) && Next(s, t) ensures Reached(t) && Remaining(t) < Remaining(s) {
      ReachedInv(s);
      StepLowers(s, t);
      ReachableStep(Initial, Next, s, t);
    }
    MeasureBoundsPath(Next, Reached, Remaining, path);
    var s := path[|path| - 1];
    ReachedInv(s);
    if forall t :: !Next(s, t) {
      forall p | 0 <= p < s.n ensures s.pc[p] == Finished {
        if s.pc[p] != Finished { NoDeadlock(s, p); }
      }
    }
  }

  /** A run kept going until all PEs are finished. */
  lemma {:induction false} AllFinished(s: State) returns (t: State)
    requires Initial(s) || Reached(s)
    ensures Reached(t) && Shape(t) && t.n == s.n && t.big == s.big && t.a == s.a && t.b == s.b && t.pc[0] == Finished
    decreases Remaining(s)
  {
    if !Reached(s) { ReachableInit(Initial, Next, s); }
    ReachedInv(s);
    if s.pc[0] == Finished {
      t := s;
    } else {
      NoDeadlock(s, 0);
      var u :| Next(s, u);
      StepLowers(s, u);
      SameMatrices(s, u);
      ReachableStep(Initial, Next, s, u);
      t := AllFinished(u);
    }
  }

  lemma SameMatrices(s: State, t: State)
    requires Next(s, t)
    ensures t.n == s.n && t.big == s.big && t.a == s.a && t.b == s.b
  {
  }

  /** While a get of PE p is in progress nobody writes the buffer it reads, at the neighbour,
      and p does not multiply with the buffer it fills. */
  lemma NoBufferRace(s: State, p: nat)
    requires Reached(s) && Shape(s) && p < s.n && s.pending[p] != -1
    ensures s.pending[Ahead(s.n, p, 1)] == -1 || 1 - s.pending[Ahead(s.n, p, 1)] != s.pending[p]
    ensures s.pc[p].Mul? ==> s.cur[p] != 1 - s.pending[p]
  {
    ReachedInv(s);
    assert PeOk(s, p) && PeOk(s, Ahead(s.n, p, 1));
    BuffersApart(s, p, Ahead(s.n, p, 1));
  }

  lemma BuffersApart(s: State, p: nat, q: nat)
    requires Shape(s) && p < s.n && q < s.n && PeOk(s, p) && PeOk(s, q) && B.Good(s.calls) && s.pending[p] != -1
    ensures s.pending[q] == -1 || 1 - s.pending[q] != s.pending[p]
    ensures s.pc[p].Mul? ==> s.cur[p] != 1 - s.pending[p]
  {
    ParityNext(s.calls.left[p]);
    ParityNext(s.calls.left[q]);
  }

  /** Once PE p has made its last call of the barrier its stripe of C holds, in every column covered by the stripes,
      the entry of A*B, and zero in the columns behind them, whether or not n divides the matrix size. */
  lemma StripeIsProduct(s: State, p: nat, row: nat, j: nat)
    requires Reached(s) && Shape(s) && p < s.n && s.calls.entered[p] >= s.n && row < s.ns && j < s.big
    ensures Idx(row, s.big, j) < |s.cs[p]|
    ensures s.cs[p][Idx(row, s.big, j)] == if j < s.n * s.ns then Entry(s.a, s.b, Idx(p, s.ns, row), j, s.big) else 0
  {
    ReachedInv(s);
    IdxBound(row, s.ns, s.big, j);
    var x := Idx(row, s.big, j);
    assert PeOk(s, p) && CellOk(s, p, x);
    DivMod(row, s.big, j);
    BlockNotNegative(s, x);
    BelowStripes(j, s.ns, s.n);
  }

  lemma BelowStripes(j: nat, ns: nat, n: nat)
    requires ns > 0
    ensures j / ns < n <==> j < n * ns
  {
    Quotient(j, ns, j / ns);
    Monotone(j / ns + 1, n, ns);
    Monotone(n, j / ns, ns);
  }

  /** The gather at the end: PE 0 copies its stripe, then gets every other one behind it. */
  method Gather(n: nat, size: nat, cs: seq<seq<int>>, c: array<int>)
    requires |cs| == n > 0 && forall p :: 0 <= p < n ==> |cs[p]| == size
    requires c.Length >= n * size
    modifies c
    ensures forall p, x :: 0 <= p < n && 0 <= x < size ==> Idx(p, size, x) < c.Length && c[Idx(p, size, x)] == cs[p][x]
    ensures forall k :: n * size <= k < c.Length ==> c[k] == old(c[k])
  {
    forall p, x | 0 <= p < n && 0 <= x < size ensures Idx(p, size, x) < c.Length { IdxBound(p, n, size, x); }
    for p := 0 to n
      invariant forall q, y :: 0 <= q < p && 0 <= y < size ==> c[Idx(q, size, y)] == cs[q][y]
      invariant forall k :: n * size <= k < c.Length ==> c[k] == old(c[k])
    {
      forall q, y | 0 <= q < p && 0 <= y < size ensures Idx(q, size, y) < p * size { IdxBound(q, p, size, y); }
      forall x | 0 <= x < size ensures p * size <= Idx(p, size, x) < n * size { IdxBound(p, n, size, x); }
      GetStripe(p, cs[p], c, n * size);
    }
  }

  method GetStripe(p: nat, stripe: seq<int>, c: array<int>, ghost bound: nat)
    requires forall x :: 0 <= x < |stripe| ==> p * |stripe| <= Idx(p, |stripe|, x) < bound
    requires bound <= c.Length
    modifies c
    ensures forall x :: 0 <= x < |stripe| ==> c[Idx(p, |stripe|, x)] == stripe[x]
    ensures forall k :: 0 <= k < c.Length && (k < p * |stripe| || k >= bound) ==> c[k] == old(c[k])
  {
    for x := 0 to |stripe|
      invariant forall y :: 0 <= y < x ==> c[Idx(p, |stripe|, y)] == stripe[y]
      invariant forall k :: 0 <= k < c.Length && (k < p * |stripe| || k >= bound) ==> c[k] == old(c[k])
    {
      c[Idx(p, |stripe|, x)] := stripe[x];
    }
  }

  /** c is what the gather gets: stripe p of every PE behind the stripes of the PEs before it. */
  ghost predicate Gathered(s: State, c: seq<int>)
    requires Shape(s)
  {
    forall p, x {:trigger Idx(p, s.ns * s.big, x)} :: 0 <= p < s.n && 0 <= x < s.ns * s.big ==>
      Idx(p, s.ns * s.big, x) < |c| && c[Idx(p, s.ns * s.big, x)] == s.cs[p][x]
  }

  /** Where the gather puts what a stripe holds. */
  lemma GatheredCell(s: State, c: seq<int>, p: nat, row: nat, j: nat)
    requires Reached(s) && Shape(s) && p < s.n && s.calls.entered[p] >= s.n && row < s.ns && j < s.big && Gathered(s, c)
    ensures Idx(Idx(p, s.ns, row), s.big, j) < |c|
    ensures c[Idx(Idx(p, s.ns, row), s.big, j)]
            == if j < s.n * s.ns then Entry(s.a, s.b, Idx(p, s.ns, row), j, s.big) else 0
  {
    StripeIsProduct(s, p, row, j);
    IdxBound(row, s.ns, s.big, j);
    SameCell(p, s.ns, row, s.big, j);
  }

  /** PE 0 gathers as soon as its own last barrier call has returned, when the others may still be inside: the
      gathered matrix is the product on all rows and columns the stripes cover, and zero in the columns behind. */
  lemma GatheredIsProduct(s: State, c: seq<int>, i: nat, j: nat)
    requires Reached(s) && Shape(s) && s.pc[0] == Finished && Gathered(s, c)
    requires i < s.n * s.ns && j < s.big
    ensures Idx(i, s.big, j) < |c|
    ensures c[Idx(i, s.big, j)] == if j < s.n * s.ns then Entry(s.a, s.b, i, j, s.big) else 0
  {
    StripesFit(s.n, s.big, s.ns, 0);
    BelowStripes(i, s.ns, s.n);
    Split(i, s.ns);
    LastCallsMade(s, i / s.ns);
    GatheredCell(s, c, i / s.ns, i % s.ns, j);
  }

  /** When PE 0 is out of its last call everybody has made theirs. */
  lemma LastCallsMade(s: State, p: nat)
    requires Reached(s) && Shape(s) && s.pc[0] == Finished && p < s.n
    ensures s.calls.entered[p] >= s.n
  {
    ReachedInv(s);
    assert PeOk(s, 0);
  }

  /** C equals A*B on all big x big cells. */
  ghost predicate IsProduct(s: State, c: seq<int>) {
    forall i: nat, j: nat {:trigger Idx(i, s.big, j)} ::
      i < s.big && j < s.big ==> Idx(i, s.big, j) < |c| && c[Idx(i, s.big, j)] == Entry(s.a, s.b, i, j, s.big)
  }

  ghost predicate MayGather(s: State, n: nat, big: nat, c: seq<int>) {
    Reached(s) && Shape(s) && s.n == n && s.big == big && s.pc[0] == Finished && Gathered(s, c)
  }

  /** For all matrices and in every run the gathered matrix is the whole product: exactly if the number of PEs
      divides the size. */
  lemma WholeProductExactly(n: nat, big: nat)
    requires n > 0 && big / n > 0
    ensures (forall s, c {:trigger MayGather(s, n, big, c)} :: MayGather(s, n, big, c) ==> IsProduct(s, c))
            <==> big % n == 0
  {
    Split(big, n);
    if big % n == 0 {
      forall s, c | MayGather(s, n, big, c) ensures IsProduct(s, c) { WholeProduct(s, c); }
    } else {
      var s, c := NotTheProduct(n, big);
    }
  }

  lemma NotTheProduct(n: nat, big: nat) returns (s: State, c: seq<int>)
    requires n > 0 && big / n > 0 && Idx(big / n, n, 0) < big
    ensures MayGather(s, n, big, c) && !IsProduct(s, c)
  {
    s := AllFinished(Ones(n, big));
    c := GatheredFrom(s, s.n);
    FromIsGathered(s);
    EmptyColumn(s, c);
  }

  lemma WholeProduct(s: State, c: seq<int>)
    requires MayGather(s, s.n, s.big, c) && Idx(s.big / s.n, s.n, 0) == s.big
    ensures IsProduct(s, c)
  {
    forall i: nat, j: nat | i < s.big && j < s.big
      ensures Idx(i, s.big, j) < |c| && c[Idx(i, s.big, j)] == Entry(s.a, s.b, i, j, s.big)
    {
      GatheredIsProduct(s, c, i, j);
    }
  }

  /** Where the multiplication of these matrices starts. */
  ghost function StartOf(a: (nat, nat) -> int, b: (nat, nat) -> int, n: nat, big: nat, ns: nat): State
    requires big > 0 && ns > 0
  {
    var stripes := seq(n, p requires 0 <= p < n => StripeA(a, big, ns, p));
    var buf := seq(n, p requires 0 <= p < n => [StripeB(b, big, ns, p), StripeB(b, big, ns, p)]);
    State(n, big, ns, a, b, stripes, buf, seq(n, _ => seq(ns * big, _ => 0)), seq(n, _ => 0), seq(n, _ => -1),
          seq(n, _ => Issue), B.Calls(seq(n, _ => 0), seq(n, _ => 0)))
  }

  lemma StartShape(a: (nat, nat) -> int, b: (nat, nat) -> int, n: nat, big: nat, ns: nat)
    requires n > 0 && big > 0 && ns > 0 && ns == big / n
    ensures Shape(StartOf(a, b, n, big, ns))
  {
  }

  lemma StartIsInitial(a: (nat, nat) -> int, b: (nat, nat) -> int, n: nat, big: nat, ns: nat)
    requires n > 0 && big > 0 && ns > 0 && ns == big / n
    ensures Initial(StartOf(a, b, n, big, ns))
  {
    StartShape(a, b, n, big, ns);
  }

  /** Two matrices of ones. */
  ghost function Ones(n: nat, big: nat): (s: State)
    requires n > 0 && big / n > 0
    ensures Initial(s) && s.n == n && s.big == big && s.a == s.b && forall i, j :: s.a(i, j) == 1
  {
    var one := (i: nat, j: nat) => 1;
    StartIsInitial(one, one, n, big, big / n);
    StartOf(one, one, n, big, big / n)
  }

  /** If the stripes do not cover the matrix, the first column behind them is zero where the product is not. */
  lemma EmptyColumn(s: State, c: seq<int>)
    requires MayGather(s, s.n, s.big, c) && Idx(s.big / s.n, s.n, 0) < s.big
    requires forall i, j :: s.a(i, j) == s.b(i, j) == 1
    ensures !IsProduct(s, c)
  {
    StripesFit(s.n, s.big, s.ns, 0);
    GatheredIsProduct(s, c, 0, s.n * s.ns);
    EntryOfOnes(s.a, s.b, 0, s.n * s.ns, s.big);
  }

  lemma {:induction false} EntryOfOnes(a: (nat, nat) -> int, b: (nat, nat) -> int, i: nat, j: nat, count: nat)
    requires forall i, j :: a(i, j) == b(i, j) == 1
    ensures Entry(a, b, i, j, count) == count
  {
    if count > 0 { EntryOfOnes(a, b, i, j, count - 1); }
  }

  /** The first k stripes one after the other. */
  ghost function GatheredFrom(s: State, k: nat): (c: seq<int>)
    requires Shape(s) && k <= s.n
    ensures |c| == k * (s.ns * s.big)
  {
    if k == 0 then [] else Longer(k, s.ns * s.big); GatheredFrom(s, k - 1) + s.cs[k - 1]
  }

  lemma Longer(k: nat, size: nat)
    requires k > 0
    ensures k * size == (k - 1) * size + size
  {
  }

  lemma FromIsGathered(s: State)
    requires Shape(s)
    ensures Gathered(s, GatheredFrom(s, s.n))
  {
    var size := s.ns * s.big;
    forall p, x | 0 <= p < s.n && 0 <= x < size
      ensures Idx(p, size, x) < |GatheredFrom(s, s.n)| && GatheredFrom(s, s.n)[Idx(p, size, x)] == s.cs[p][x]
    {
      FromAt(s, s.n, p, x);
    }
  }

  lemma {:induction false} FromAt(s: State, k: nat, p: nat, x: nat)
    requires Shape(s) && p < k <= s.n && x < s.ns * s.big
    ensures Idx(p, s.ns * s.big, x) < |GatheredFrom(s, k)| && GatheredFrom(s, k)[Idx(p, s.ns * s.big, x)] == s.cs[p][x]
  {
    Longer(k, s.ns * s.big);
    if p < k - 1 { FromAt(s, k - 1, p, x); }
  }

  lemma SameCell(p: nat, ns: nat, row: nat, big: nat, j: nat)
    ensures Idx(p, ns * big, Idx(row, big, j)) == Idx(Idx(p, ns, row), big, j)
  {
    assert p * (ns * big) == p * ns * big;
    assert Idx(p, ns, row) * big == p * ns * big + row * big;
  }
}
