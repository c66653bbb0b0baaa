/** The 32-bit lock word: two 16-bit halves moved around as one integer. */
module LockWord {

  datatype Word = Word(locked: int, next: int)

  const FREE := Word(-1, -1)
  const RESET := Word(0, 0)

  /** The C conversions to int16_t and int32_t: keep the low bits, read them as signed. */
  function ToInt16(x: int): int { (x + 0x8000) % 0x1_0000 - 0x8000 }
  function ToInt32(x: int): int { (x + 0x8000_0000) % 0x1_0000_0000 - 0x8000_0000 }

  predicate IsWord(w: Word) {
    ToInt16(w.locked) == w.locked && ToInt16(w.next) == w.next
  }

  /** The union's blob, on a little-endian and on a big-endian machine. */
  function Blob(w: Word, bigEndian: bool): int {
    if bigEndian then ToInt32(w.locked % 0x1_0000 * 0x1_0000 + w.next % 0x1_0000)
    else ToInt32(w.next % 0x1_0000 * 0x1_0000 + w.locked % 0x1_0000)
  }

  /** Reading bits as signed is one subtraction; the low half of a 16-bit value is one addition. */
  lemma Signed16(x: int)
    ensures ToInt16(x) == x <==> -0x8000 <= x <= 0x7fff
    ensures -0x8000 <= x < 0 ==> x % 0x1_0000 == x + 0x1_0000
    ensures 0 <= x <= 0x7fff ==> x % 0x1_0000 == x
  {
  }

  lemma Signed32(x: int)
    requires 0 <= x < 0x1_0000_0000
    ensures ToInt32(x) == if x < 0x8000_0000 then x else x - 0x1_0000_0000
  {
  }

  /** On either byte order the blob determines both halves, and the two special blobs -1 and 0
      stand for exactly the words FREE and RESET: comparing blobs is comparing words. */
  lemma BlobFaithful(v: Word, w: Word, bigEndian: bool)
    requires IsWord(v) && IsWord(w)
    ensures Blob(v, bigEndian) == Blob(w, bigEndian) <==> v == w
    ensures Blob(w, bigEndian) == -1 <==> w == FREE
    ensures Blob(w, bigEndian) == 0 <==> w == RESET
  {
    if bigEndian {
      HalvesFaithful(v.locked, v.next, w.locked, w.next);
    } else {
      HalvesFaithful(v.next, v.locked, w.next, w.locked);
    }
  }

  /** Two unsigned halves, put together. */
  lemma Packed(hi: int, lo: int, hi': int, lo': int)
    requires 0 <= hi < 0x1_0000 && 0 <= lo < 0x1_0000 && 0 <= hi' < 0x1_0000 && 0 <= lo' < 0x1_0000
    ensures ToInt32(hi * 0x1_0000 + lo) == ToInt32(hi' * 0x1_0000 + lo') <==> hi == hi' && lo == lo'
    ensures ToInt32(hi * 0x1_0000 + lo) == -1 <==> hi == lo == 0xffff
    ensures ToInt32(hi * 0x1_0000 + lo) == 0 <==> hi == lo == 0
  {
    Signed32(hi * 0x1_0000 + lo);
    Signed32(hi' * 0x1_0000 + lo');
  }

  /** The low half of a 16-bit value determines it. */
  lemma LowHalf(x: int, y: int)
    requires ToInt16(x) == x && ToInt16(y) == y
    ensures 0 <= x % 0x1_0000 < 0x1_0000
    ensures x % 0x1_0000 == y % 0x1_0000 <==> x == y
    ensures (x % 0x1_0000 == 0xffff <==> x == -1) && (x % 0x1_0000 == 0 <==> x == 0)
  {
    Signed16(x);
    Signed16(y);
  }

  /** The same for one fixed order of the halves. */
  lemma HalvesFaithful(hi: int, lo: int, hi': int, lo': int)
    requires ToInt16(hi) == hi && ToInt16(lo) == lo && ToInt16(hi') == hi' && ToInt16(lo') == lo'
    ensures var b := ToInt32(hi % 0x1_0000 * 0x1_0000 + lo % 0x1_0000);
            var b' := ToInt32(hi' % 0x1_0000 * 0x1_0000 + lo' % 0x1_0000);
            (b == b' <==> hi == hi' && lo == lo') && (b' == -1 <==> hi' == lo' == -1) && (b' == 0 <==> hi' == lo' == 0)
  {
    LowHalf(hi, hi');
    LowHalf(lo, lo');
    LowHalf(hi', hi);
    LowHalf(lo', lo);
    Packed(hi' % 0x1_0000, lo' % 0x1_0000, hi % 0x1_0000, lo % 0x1_0000);
  }

  /** A rank survives the trip through the 16-bit half exactly when it is below 32768. */
  lemma RankFits(rank: nat)
    ensures ToInt16(rank) == rank <==> rank <= 0x7fff
  {
    Signed16(rank);
  }
}
