/** What the operations on words mean, stated without their formulas: laws that determine their
    results (Appendix H.2 of the Ethereum Yellow Paper). The rules for constants
    (libevmasm/RuleList.h:61-99) fold with the same operations. */
module WordLaws {
  import opened Words

  // ----- signed division -----

  /** q and r are quotient and remainder of a division that truncates: the remainder is smaller than
      the divisor and has the sign of the dividend. */
  predicate Truncates(a: int, b: int, q: int, r: int) {
    a == b * q + r && Abs(r) < Abs(b) && (r != 0 ==> (r < 0 <==> a < 0))
  }

  lemma TruncDivTruncates(a: int, b: int)
    requires b != 0
    ensures Truncates(a, b, TruncDiv(a, b), TruncMod(a, b))
  {
    var q, m := Abs(a) / Abs(b), Abs(a) % Abs(b);
    Negations(b, q);
    assert Abs(a) == Abs(b) * q + m;
    assert Abs(TruncMod(a, b)) == m < Abs(b);
  }

  lemma Negations(b: int, q: int)
    ensures b * -q == -(b * q) && -b * q == -(b * q)
  {
  }

  /** The law leaves no choice. */
  lemma TruncatesUnique(a: int, b: int, q: int, r: int, q': int, r': int)
    requires b != 0 && Truncates(a, b, q, r) && Truncates(a, b, q', r')
    ensures q == q' && r == r'
  {
    assert b * (q - q') == r' - r by {
      assert b * (q - q') == b * q - b * q';
    }
    NotSmaller(b, q - q');
  }

  lemma NotSmaller(b: int, d: int)
    ensures d != 0 ==> Abs(b * d) >= Abs(b)
  {
    if d != 0 {
      MulAtLeast(Abs(d), Abs(b));
      Negations(b, d);
      Negations(d, b);
      assert Abs(b * d) == Abs(d) * Abs(b);
    }
  }

  /** The words whose quotient is not a word: the least number divided by -1. */
  predicate DivisionOverflows(a: Word, b: Word) {
    ToSigned(a) == -SIGN_LIMIT && ToSigned(b) == -1
  }

  lemma SignedRange(x: Word)
    ensures -SIGN_LIMIT <= ToSigned(x) < SIGN_LIMIT && FromSigned(ToSigned(x)) == x
  {
  }

  lemma SignedBack(n: int)
    requires -SIGN_LIMIT <= n < SIGN_LIMIT
    ensures ToSigned(FromSigned(n)) == n
  {
  }

  /** SDIV and SMOD truncate; dividing the least number by -1 gives it back. */
  lemma SignedDivision(a: Word, b: Word)
    ensures b == 0 ==> SDiv(a, b) == 0 && SMod(a, b) == 0
    ensures b != 0 && !DivisionOverflows(a, b) ==> Truncates(ToSigned(a), ToSigned(b), ToSigned(SDiv(a, b)), ToSigned(SMod(a, b)))
    ensures DivisionOverflows(a, b) ==> SDiv(a, b) == a && SMod(a, b) == 0
  {
    if b != 0 {
      var x, y := ToSigned(a), ToSigned(b);
      var q, r := TruncDiv(x, y), TruncMod(x, y);
      SignedRange(a);
      SignedRange(b);
      TruncDivTruncates(x, y);
      SignedBack(r);
      if DivisionOverflows(a, b) {
        TruncatesUnique(x, y, q, r, SIGN_LIMIT, 0);
      } else {
        QuotientRange(x, y);
        SignedBack(q);
      }
    }
  }

  lemma QuotientRange(x: int, y: int)
    requires y != 0 && -SIGN_LIMIT <= x < SIGN_LIMIT && !(x == -SIGN_LIMIT && y == -1)
    ensures -SIGN_LIMIT <= TruncDiv(x, y) < SIGN_LIMIT
  {
    DivBound(Abs(x), Abs(y));
    if Abs(x) == SIGN_LIMIT && Abs(y) > 1 {
      HalfAtMost(Abs(x), Abs(y));
    }
  }

  lemma HalfAtMost(x: nat, y: nat)
    requires x > 0 && y > 1
    ensures x / y < x
  {
    var q := x / y;
    assert x == q * y + x % y;
    MulAtLeast(y - 1, q);
    assert q * y == (y - 1) * q + q;
  }

  // ----- bits -----

  function Bit(x: nat, i: nat): nat {
    (x / Pow2(i)) % 2
  }

  lemma {:induction false} NextBit(x: nat, i: nat)
    ensures Bit(x, i + 1) == Bit(x / 2, i)
  {
    var p := Pow2(i);
    assert Pow2(i + 1) == 2 * p;
    var q, r := (x / 2) / p, (x / 2) % p;
    assert x == q * (2 * p) + (2 * r + x % 2) by {
      assert x / 2 == q * p + r;
      assert q * (2 * p) == 2 * (q * p);
    }
    DivModUnique(x, 2 * p, q, 2 * r + x % 2);
  }

  /** AND, OR and XOR work on every bit by itself. */
  lemma {:induction false} BitwiseBits(x: nat, y: nat, i: nat)
    ensures Bit(BitAnd(x, y), i) == (if Bit(x, i) == 1 && Bit(y, i) == 1 then 1 else 0)
    ensures Bit(BitOr(x, y), i) == (if Bit(x, i) == 1 || Bit(y, i) == 1 then 1 else 0)
    ensures Bit(BitXor(x, y), i) == (if Bit(x, i) != Bit(y, i) then 1 else 0)
    decreases i
  {
    BitAndStep(x, y);
    BitOrStep(x, y);
    BitXorStep(x, y);
    if i == 0 {
      assert forall z: nat :: Bit(z, 0) == z % 2;
    } else {
      BitwiseBits(x / 2, y / 2, i - 1);
      NextBit(x, i - 1);
      NextBit(y, i - 1);
      NextBit(BitAnd(x, y), i - 1);
      NextBit(BitOr(x, y), i - 1);
      NextBit(BitXor(x, y), i - 1);
    }
  }

  /** NOT flips every bit of the word. */
  lemma {:induction false} NotBits(x: nat, n: nat, i: nat)
    requires i < n && x < Pow2(n)
    ensures Bit(Pow2(n) - 1 - x, i) == 1 - Bit(x, i)
    decreases i
  {
    var y := Pow2(n) - 1 - x;
    assert Pow2(n) == 2 * Pow2(n - 1);
    if i == 0 {
      assert Bit(x, 0) == x % 2 && Bit(y, 0) == y % 2;
    } else {
      assert y / 2 == Pow2(n - 1) - 1 - x / 2;
      NotBits(x / 2, n - 1, i - 1);
      NextBit(x, i - 1);
      NextBit(y, i - 1);
    }
  }

  // ----- shifts and sign extension -----

  /** SHR and SAR round down: unsigned and signed. */
  lemma ShiftsRoundDown(s: Word, x: Word)
    requires s <= 255
    ensures Shr(s, x) * Pow2(s) <= x < (Shr(s, x) + 1) * Pow2(s)
    ensures ToSigned(Sar(s, x)) * Pow2(s) <= ToSigned(x) < (ToSigned(Sar(s, x)) + 1) * Pow2(s)
  {
    var p := Pow2(s);
    FloorBounds(x, p);
    FloorBounds(ToSigned(x), p);
    SignedRange(x);
    FloorRange(ToSigned(x), p);
    SignedBack(ToSigned(x) / p);
  }

  lemma FloorBounds(x: int, p: int)
    requires p > 0
    ensures x / p * p <= x < (x / p + 1) * p
  {
    assert x == x / p * p + x % p;
    assert (x / p + 1) * p == x / p * p + p;
  }

  lemma FloorRange(x: int, p: int)
    requires p > 0 && -SIGN_LIMIT <= x < SIGN_LIMIT
    ensures -SIGN_LIMIT <= x / p < SIGN_LIMIT
  {
    var f := x / p;
    FloorBounds(x, p);
    if f >= 0 {
      MulAtLeast(p, f);
      assert p * f == f * p;
    } else {
      MulAtLeast(p, -(f + 1));
      assert p * -(f + 1) == -((f + 1) * p);
    }
  }

  /** The extended number has the value that the low bytes have as a signed number: it is the only
      one in the range of that many bytes with the same low bits. */
  lemma SignExtendIs(k: Word, x: Word)
    requires k < 31
    ensures var p, v := Pow2(8 * k + 7), ToSigned(SignExtend(k, x)); 0 <= p + v && v < p && (v - x) % (2 * p) == 0
  {
    var p := Pow2(8 * k + 7);
    Pow2Bits();
    Pow2Monotone(8 * k + 7, WORD_BITS - 1);
    assert WORD_BASE == 2 * Pow2(WORD_BITS - 1);
    SignedBack(LowSigned(x, p));
    LowSignedIs(x, p);
  }

  /** The value of the low bits below 2p as a signed number. */
  function LowSigned(x: nat, p: nat): int
    requires p > 0
  {
    var low := x % (2 * p);
    if low >= p then low - 2 * p else low
  }

  lemma LowSignedIs(x: nat, p: nat)
    requires p > 0
    ensures 0 <= p + LowSigned(x, p) && LowSigned(x, p) < p && (LowSigned(x, p) - x) % (2 * p) == 0
  {
    var q := x / (2 * p);
    var low := x % (2 * p);
    assert x == q * (2 * p) + low;
    var c := if low >= p then -q - 1 else -q;
    Distributed(q, 2 * p);
    DivModUnique(LowSigned(x, p) - x, 2 * p, c, 0);
  }

  lemma Distributed(q: int, n: int)
    ensures (-q - 1) * n == -(q * n) - n && -q * n == -(q * n)
  {
  }
}
