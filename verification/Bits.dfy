/** Integer arithmetic shared by the models: division, places on a circle, powers of two, and the bitwise operators of C
    on non-negative integers, bit by bit. */
module Bits {

  function Exp2(k: nat): (r: nat)
    ensures r > 0
  {
    if k == 0 then 1 else 2 * Exp2(k - 1)
  }

  function And(a: nat, b: nat): nat {
    if a == 0 then 0 else 2 * And(a / 2, b / 2) + (a % 2) * (b % 2)
  }
  function Or(a: nat, b: nat): nat
    decreases a + b
  {
    if a == 0 && b == 0 then 0 else 2 * Or(a / 2, b / 2) + (if a % 2 == 1 || b % 2 == 1 then 1 else 0)
  }
  function AndNot(a: nat, b: nat): nat {
    if a == 0 then 0 else 2 * AndNot(a / 2, b / 2) + (if a % 2 == 1 && b % 2 == 0 then 1 else 0)
  }

  function Xor(a: nat, b: nat): nat
    decreases a + b
  {
    if a == 0 && b == 0 then 0 else 2 * Xor(a / 2, b / 2) + (if a % 2 != b % 2 then 1 else 0)
  }

  predicate Bit(x: nat, i: nat) { if i == 0 then x % 2 == 1 else Bit(x / 2, i - 1) }

  /** The operators work bit by bit. */
  lemma {:induction false} BitByBit(a: nat, b: nat, i: nat)
    ensures Bit(And(a, b), i) <==> Bit(a, i) && Bit(b, i)
    ensures Bit(Or(a, b), i) <==> Bit(a, i) || Bit(b, i)
    ensures Bit(Xor(a, b), i) <==> Bit(a, i) != Bit(b, i)
    ensures Bit(AndNot(a, b), i) <==> Bit(a, i) && !Bit(b, i)
  {
    if i > 0 {
      ZeroBits(i - 1);
      BitByBit(a / 2, b / 2, i - 1);
    }
  }

  /** Bit i is the digit of 2^i, and the bits determine the word. */
  lemma {:induction false} BitIsDigit(x: nat, i: nat)
    ensures Bit(x, i) <==> x / Exp2(i) % 2 == 1
  {
    if i > 0 {
      BitIsDigit(x / 2, i - 1);
      HalfQuotient(x, Exp2(i - 1));
    }
  }

  lemma HalfQuotient(x: nat, d: nat)
    requires d > 0
    ensures x / (2 * d) == x / 2 / d
  {
    var q := x / 2 / d;
    Quotient(x / 2, d, q);
    assert q * (2 * d) == 2 * (q * d);
    Quotient(x, 2 * d, q);
  }

  lemma {:induction false} SameBits(x: nat, y: nat)
    requires forall i: nat :: Bit(x, i) <==> Bit(y, i)
    ensures x == y
    decreases x + y
  {
    assert Bit(x, 0) <==> Bit(y, 0);
    if x > 0 || y > 0 {
      forall i: nat ensures Bit(x / 2, i) <==> Bit(y / 2, i) { assert Bit(x, i + 1) <==> Bit(y, i + 1); }
      SameBits(x / 2, y / 2);
    }
  }

  lemma {:induction false} ZeroBits(i: nat)
    ensures !Bit(0, i)
  {
    if i > 0 { ZeroBits(i - 1); }
  }

  /** None of the three operators leaves the word width of its operands. */
  lemma {:induction false} StaysInWord(a: nat, b: nat, width: nat)
    requires a < Exp2(width) && b < Exp2(width)
    ensures And(a, b) < Exp2(width) && Or(a, b) < Exp2(width) && Xor(a, b) < Exp2(width)
  {
    if width > 0 { StaysInWord(a / 2, b / 2, width - 1); }
  }

  /** Division by what it promises. */
  lemma Quotient(x: nat, d: nat, q: nat)
    requires d > 0
    ensures x / d == q <==> q * d <= x < q * d + d
  {
    if x / d < q {
      assert (x / d + 1) * d <= q * d;
    } else if x / d > q {
      assert (q + 1) * d <= x / d * d;
    }
  }

  lemma Monotone(a: nat, b: nat, d: nat)
    ensures a <= b ==> a * d <= b * d
  {
  }

  /** (i + d) % n for d up to n, and its inverse for d below n. */
  function Ahead(n: nat, i: nat, d: nat): int { if i + d < n then i + d else i + d - n }
  function Behind(n: nat, i: nat, d: nat): int { if i >= d then i - d else i - d + n }

  lemma AheadIsModulo(n: nat, i: nat, d: nat)
    requires i < n && d < n
    ensures Ahead(n, i, d) == (i + d) % n
    ensures 0 <= Behind(n, i, d) < n && Ahead(n, Behind(n, i, d), d) == i
    ensures 0 <= Ahead(n, i, d) < n && Behind(n, Ahead(n, i, d), d) == i
  {
    Quotient(i + d, n, if i + d < n then 0 else 1);
    Remainder(i + d, n);
  }

  lemma Remainder(x: nat, n: nat)
    requires n > 0
    ensures x / n == 0 ==> x % n == x
    ensures x / n == 1 ==> x % n == x - n
  {
    assert x == x / n * n + x % n;
  }
}
