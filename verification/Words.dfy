/** 256-bit machine words and the arithmetic of the Ethereum virtual machine.

    Words are integers in [0, 2^256); every operation that can leave this range wraps explicitly.
    The operations follow Appendix H.2 of the Ethereum Yellow Paper. */
module Words {

  const WORD_BASE: int := 0x1_0000000000000000_0000000000000000_0000000000000000_0000000000000000

  type Word = x: int | 0 <= x < WORD_BASE

  const MAX_WORD: Word := WORD_BASE - 1

  /** Number of bits of a word and of an account address. */
  const WORD_BITS: nat := 256
  const ADDRESS_BITS: nat := 160
  const ADDRESS_BASE: int := 0x1_00000000_0000000000000000_0000000000000000

  const SIGN_LIMIT: int := WORD_BASE / 2

  function Wrap(x: int): Word {
    x % WORD_BASE
  }

  // ----- powers of two -----

  function Pow2(n: nat): (r: nat)
    ensures r > 0
  {
    if n == 0 then 1 else 2 * Pow2(n - 1)
  }

  lemma Pow2Add(m: nat, n: nat)
    ensures Pow2(m + n) == Pow2(m) * Pow2(n)
  {
    if m != 0 {
      Pow2Add(m - 1, n);
      assert Pow2(m + n) == 2 * Pow2(m - 1 + n);
    }
  }

  lemma Pow2Monotone(m: nat, n: nat)
    requires m < n
    ensures Pow2(m) < Pow2(n)
  {
    if m + 1 != n {
      Pow2Monotone(m, n - 1);
    }
  }

  lemma Pow2Double(n: nat, value: nat)
    requires Pow2(n) == value
    ensures Pow2(n + n) == value * value
  {
    Pow2Add(n, n);
  }

  lemma Pow2Small()
    ensures forall n: nat :: n == 8 ==> Pow2(n) == 0x100
  {
    assert Pow2(8) == 0x100;
  }

  lemma Pow2ThirtyTwo(n: nat)
    requires n == 32
    ensures Pow2(n) == 0x1_0000_0000
  {
    Pow2Small();
    Pow2Double(n - 24, 0x100);
    Pow2Double(n - 16, 0x1_0000);
  }

  lemma Pow2Bits()
    ensures Pow2(WORD_BITS) == WORD_BASE
    ensures Pow2(ADDRESS_BITS) == ADDRESS_BASE
  {
    var n: nat :| n == 8;
    Pow2Small();
    Pow2Double(n, 0x100);
    Pow2Double(2 * n, 0x1_0000);
    Pow2Double(4 * n, 0x1_0000_0000);
    Pow2Double(8 * n, 0x1_0000_0000_0000_0000);
    Pow2Double(16 * n, 0x1_0000_0000_0000_0000_0000_0000_0000_0000);
    Pow2Add(16 * n, 4 * n);
  }

  // ----- wrapping -----

  lemma WrapMultiple(x: int, k: int)
    ensures Wrap(x + k * WORD_BASE) == Wrap(x)
    decreases Abs(k)
  {
    if k > 0 {
      WrapMultiple(x, k - 1);
      WrapStep(x + (k - 1) * WORD_BASE);
    } else if k < 0 {
      WrapMultiple(x, k + 1);
      WrapStep(x + k * WORD_BASE);
    }
  }

  lemma WrapStep(x: int)
    ensures Wrap(x + WORD_BASE) == Wrap(x)
  {
  }

  lemma WrapAdd(x: int, y: int)
    ensures Wrap(Wrap(x) + y) == Wrap(x + y)
    ensures Wrap(y - Wrap(x)) == Wrap(y - x)
  {
    var q := x / WORD_BASE;
    assert x == Wrap(x) + q * WORD_BASE;
    WrapMultiple(Wrap(x) + y, q);
    WrapMultiple(y - x, q);
    assert y - x + q * WORD_BASE == y - Wrap(x);
  }

  lemma WrapMul(x: int, y: int)
    ensures Wrap(Wrap(x) * y) == Wrap(x * y)
  {
    var q := x / WORD_BASE;
    assert x == q * WORD_BASE + Wrap(x);
    assert x * y == Wrap(x) * y + (q * y) * WORD_BASE by {
      assert x * y == (q * WORD_BASE + Wrap(x)) * y == q * WORD_BASE * y + Wrap(x) * y;
      assert q * WORD_BASE * y == (q * y) * WORD_BASE;
    }
    WrapMultiple(Wrap(x) * y, q * y);
  }

  // ----- two's complement -----

  function ToSigned(x: Word): int {
    if x >= SIGN_LIMIT then x - WORD_BASE else x
  }

  function FromSigned(x: int): Word {
    Wrap(x)
  }

  /** Division that truncates toward zero; Dafny's own `/` is Euclidean. */
  function TruncDiv(a: int, b: int): int
    requires b != 0
  {
    var q := Abs(a) / Abs(b);
    if (a < 0) != (b < 0) then -q else q
  }

  /** The remainder that takes the sign of the dividend. */
  function TruncMod(a: int, b: int): int
    requires b != 0
  {
    var m := Abs(a) % Abs(b);
    if a < 0 then -m else m
  }

  function Abs(a: int): nat {
    if a < 0 then -a else a
  }

  function Power(a: int, n: nat): int {
    if n == 0 then 1 else a * Power(a, n - 1)
  }

  lemma PowerOfTwo(n: nat)
    ensures Power(2, n) == Pow2(n)
  {
  }

  // ----- bitwise operations, one bit at a time -----

  function BitAnd(x: nat, y: nat): nat {
    if x == 0 then 0 else (if x % 2 == 1 && y % 2 == 1 then 1 else 0) + 2 * BitAnd(x / 2, y / 2)
  }

  function BitOr(x: nat, y: nat): nat
    decreases x + y
  {
    if x == 0 then y
    else if y == 0 then x
    else (if x % 2 == 1 || y % 2 == 1 then 1 else 0) + 2 * BitOr(x / 2, y / 2)
  }

  function BitXor(x: nat, y: nat): nat
    decreases x + y
  {
    if x == 0 then y
    else if y == 0 then x
    else (if x % 2 != y % 2 then 1 else 0) + 2 * BitXor(x / 2, y / 2)
  }

  lemma {:induction false} BitBounds(x: nat, y: nat, n: nat)
    requires x < Pow2(n) && y < Pow2(n)
    ensures BitAnd(x, y) < Pow2(n) && BitOr(x, y) < Pow2(n) && BitXor(x, y) < Pow2(n)
    ensures BitAnd(x, y) <= x
  {
    if n != 0 {
      BitBounds(x / 2, y / 2, n - 1);
    }
  }

  lemma {:induction false} BitAndComm(x: nat, y: nat)
    ensures BitAnd(x, y) == BitAnd(y, x)
  {
    BitAndZero(x);
    BitAndZero(y);
    if x != 0 && y != 0 {
      BitAndComm(x / 2, y / 2);
    }
  }

  lemma {:induction false} BitAndZero(x: nat)
    ensures BitAnd(x, 0) == 0
  {
    if x != 0 {
      BitAndZero(x / 2);
    }
  }

  lemma {:induction false} BitOrComm(x: nat, y: nat)
    ensures BitOr(x, y) == BitOr(y, x)
    decreases x + y
  {
    if x != 0 && y != 0 {
      BitOrComm(x / 2, y / 2);
    }
  }

  lemma {:induction false} BitXorComm(x: nat, y: nat)
    ensures BitXor(x, y) == BitXor(y, x)
    decreases x + y
  {
    if x != 0 && y != 0 {
      BitXorComm(x / 2, y / 2);
    }
  }

  lemma {:induction false} BitAndStep(x: nat, y: nat)
    ensures BitAnd(x, y) / 2 == BitAnd(x / 2, y / 2)
    ensures BitAnd(x, y) % 2 == (if x % 2 == 1 && y % 2 == 1 then 1 else 0)
  {
    BitAndZero(x);
    if x != 0 {
      assert BitAnd(x, y) == (if x % 2 == 1 && y % 2 == 1 then 1 else 0) + 2 * BitAnd(x / 2, y / 2);
    }
  }

  lemma {:induction false} BitOrStep(x: nat, y: nat)
    ensures BitOr(x, y) / 2 == BitOr(x / 2, y / 2)
    ensures BitOr(x, y) % 2 == (if x % 2 == 1 || y % 2 == 1 then 1 else 0)
  {
    if x != 0 && y != 0 {
      assert BitOr(x, y) == (if x % 2 == 1 || y % 2 == 1 then 1 else 0) + 2 * BitOr(x / 2, y / 2);
    } else if y == 0 {
      assert BitOr(x, y) == x;
    }
  }

  lemma {:induction false} BitXorStep(x: nat, y: nat)
    ensures BitXor(x, y) / 2 == BitXor(x / 2, y / 2)
    ensures BitXor(x, y) % 2 == (if x % 2 != y % 2 then 1 else 0)
  {
    if x != 0 && y != 0 {
      assert BitXor(x, y) == (if x % 2 != y % 2 then 1 else 0) + 2 * BitXor(x / 2, y / 2);
    } else if y == 0 {
      assert BitXor(x, y) == x;
    }
  }

  lemma {:induction false} BitAndAssoc(x: nat, y: nat, z: nat)
    ensures BitAnd(BitAnd(x, y), z) == BitAnd(x, BitAnd(y, z))
    decreases x
  {
    BitAndStep(x, y);
    BitAndStep(y, z);
    BitAndStep(BitAnd(x, y), z);
    BitAndStep(x, BitAnd(y, z));
    if x != 0 {
      BitAndAssoc(x / 2, y / 2, z / 2);
    }
  }

  lemma {:induction false} BitOrAssoc(x: nat, y: nat, z: nat)
    ensures BitOr(BitOr(x, y), z) == BitOr(x, BitOr(y, z))
    decreases x + y + z
  {
    BitOrStep(x, y);
    BitOrStep(y, z);
    BitOrStep(BitOr(x, y), z);
    BitOrStep(x, BitOr(y, z));
    if x + y + z != 0 {
      BitOrAssoc(x / 2, y / 2, z / 2);
    }
  }

  lemma {:induction false} BitXorAssoc(x: nat, y: nat, z: nat)
    ensures BitXor(BitXor(x, y), z) == BitXor(x, BitXor(y, z))
    decreases x + y + z
  {
    BitXorStep(x, y);
    BitXorStep(y, z);
    BitXorStep(BitXor(x, y), z);
    BitXorStep(x, BitXor(y, z));
    if x + y + z != 0 {
      BitXorAssoc(x / 2, y / 2, z / 2);
    }
  }

  /** Idempotence, self-cancellation and the absorption laws. */
  lemma {:induction false} BitSelf(x: nat)
    ensures BitAnd(x, x) == x && BitOr(x, x) == x && BitXor(x, x) == 0
  {
    BitAndStep(x, x);
    BitOrStep(x, x);
    BitXorStep(x, x);
    if x != 0 {
      BitSelf(x / 2);
    }
  }

  lemma {:induction false} BitAbsorb(x: nat, y: nat)
    ensures BitOr(x, BitAnd(x, y)) == x && BitAnd(x, BitOr(x, y)) == x
    decreases x + y
  {
    BitAndStep(x, y);
    BitOrStep(x, y);
    BitOrStep(x, BitAnd(x, y));
    BitAndStep(x, BitOr(x, y));
    if x + y != 0 {
      BitAbsorb(x / 2, y / 2);
    }
  }

  lemma BitXorCancel(x: nat, y: nat)
    ensures BitXor(x, BitXor(x, y)) == y && BitXor(x, BitXor(y, x)) == y
  {
    BitXorAssoc(x, x, y);
    BitSelf(x);
    BitXorComm(x, y);
  }

  lemma BitXorZero(x: nat, y: nat)
    ensures BitXor(x, y) == 0 <==> x == y
  {
    BitXorCancel(x, y);
    BitSelf(x);
    if BitXor(x, y) == 0 {
      assert BitXor(x, 0) == x;
    }
  }

  /** Two numbers whose binary digits are complementary. */
  lemma {:induction false} BitComplement(x: nat, y: nat, n: nat)
    requires x + y == Pow2(n) - 1
    ensures BitAnd(x, y) == 0 && BitOr(x, y) == Pow2(n) - 1
  {
    if n != 0 {
      assert x % 2 + y % 2 == 1;
      assert x / 2 + y / 2 == Pow2(n - 1) - 1;
      BitComplement(x / 2, y / 2, n - 1);
      BitAndStep(x, y);
      BitOrStep(x, y);
    }
  }

  /** Masking with n ones keeps the remainder modulo 2^n. */
  lemma {:induction false} BitMask(x: nat, n: nat)
    ensures BitAnd(x, Pow2(n) - 1) == x % Pow2(n)
  {
    if n == 0 {
      BitAndZero(x);
    } else {
      var m := Pow2(n) - 1;
      BitAndStep(x, m);
      assert m % 2 == 1 && m / 2 == Pow2(n - 1) - 1;
      BitMask(x / 2, n - 1);
      ModDouble(x, Pow2(n - 1));
    }
  }

  lemma BitMaskSmall(x: nat, n: nat)
    requires x < Pow2(n)
    ensures BitAnd(x, Pow2(n) - 1) == x
  {
    hide BitAnd;
    BitMask(x, n);
    DivModUnique(x, Pow2(n), 0, x);
  }

  lemma ModDouble(x: nat, p: nat)
    requires p > 0
    ensures x % (2 * p) == x % 2 + 2 * ((x / 2) % p)
  {
    var q := (x / 2) / p;
    var r := (x / 2) % p;
    assert x / 2 == q * p + r;
    assert x == q * (2 * p) + (x % 2 + 2 * r) by {
      assert x == 2 * (x / 2) + x % 2;
      assert 2 * (q * p) == q * (2 * p);
    }
    DivModUnique(x, 2 * p, q, x % 2 + 2 * r);
  }

  lemma DivModUnique(x: int, d: int, q: int, r: int)
    requires d > 0 && 0 <= r < d && x == q * d + r
    ensures x / d == q && x % d == r
  {
    var q' := x / d;
    assert x == q' * d + x % d;
    assert (q - q') * d == x % d - r by {
      assert (q - q') * d == q * d - q' * d;
    }
    assert (q' - q) * d == r - x % d;
    if q > q' {
      MulAtLeast(q - q', d);
    } else if q < q' {
      MulAtLeast(q' - q, d);
    }
  }

  lemma MulAtLeast(k: int, d: int)
    requires k >= 1 && d >= 0
    ensures k * d >= d
  {
    if k > 1 {
      MulAtLeast(k - 1, d);
      assert k * d == (k - 1) * d + d;
    }
  }

  /** Setting every bit from position k up to position n - 1. */
  lemma {:induction false} BitFillHigh(x: nat, k: nat, n: nat)
    requires k <= n && x < Pow2(n)
    ensures Pow2(k) <= Pow2(n)
    ensures BitOr(x, Pow2(n) - Pow2(k)) == x % Pow2(k) + Pow2(n) - Pow2(k)
  {
    if k == 0 {
      BitOrFull(x, n);
    } else {
      BitFillHigh(x / 2, k - 1, n - 1);
      var half := Pow2(n - 1) - Pow2(k - 1);
      assert Pow2(n) - Pow2(k) == 2 * half;
      BitOrEven(x, half);
      ModDouble(x, Pow2(k - 1));
    }
  }

  lemma BitOrEven(x: nat, half: nat)
    ensures BitOr(x, 2 * half) == x % 2 + 2 * BitOr(x / 2, half)
  {
    BitOrStep(x, 2 * half);
  }

  lemma {:induction false} BitOrFull(x: nat, n: nat)
    requires x < Pow2(n)
    ensures BitOr(x, Pow2(n) - 1) == Pow2(n) - 1
  {
    if n != 0 {
      var m := Pow2(n) - 1;
      assert m % 2 == 1 && m / 2 == Pow2(n - 1) - 1;
      BitOrStep(x, m);
      BitOrFull(x / 2, n - 1);
    }
  }

  // ----- word operations -----

  function Add(x: int, y: int): Word { Wrap(x + y) }

  function Mul(x: int, y: int): Word { Wrap(x * y) }

  function Sub(x: int, y: int): Word { Wrap(x - y) }

  function Not(x: Word): Word { MAX_WORD - x }

  function And(x: Word, y: Word): Word {
    Pow2Bits();
    BitBounds(x, y, WORD_BITS);
    BitAnd(x, y)
  }

  function Or(x: Word, y: Word): Word {
    Pow2Bits();
    BitBounds(x, y, WORD_BITS);
    BitOr(x, y)
  }

  function Xor(x: Word, y: Word): Word {
    Pow2Bits();
    BitBounds(x, y, WORD_BITS);
    BitXor(x, y)
  }

  function Bool(b: bool): Word { if b then 1 else 0 }

  function Div(a: Word, b: Word): Word {
    if b == 0 then 0 else DivBound(a, b); a / b
  }

  function Mod(a: Word, b: Word): Word {
    if b == 0 then 0 else a % b
  }

  function SDiv(a: Word, b: Word): Word {
    if b == 0 then 0 else FromSigned(TruncDiv(ToSigned(a), ToSigned(b)))
  }

  function SMod(a: Word, b: Word): Word {
    if b == 0 then 0 else FromSigned(TruncMod(ToSigned(a), ToSigned(b)))
  }

  function AddMod(a: Word, b: Word, m: Word): Word {
    if m == 0 then 0 else (a + b) % m
  }

  function MulMod(a: Word, b: Word, m: Word): Word {
    if m == 0 then 0 else (a * b) % m
  }

  function Exp(a: Word, b: Word): Word {
    Wrap(Power(a, b))
  }

  /** Extends the sign of the number held in the k + 1 least significant bytes of x. */
  function SignExtend(k: Word, x: Word): Word {
    if k >= 31 then x
    else
      var p := Pow2(8 * k + 7);
      var low := x % (2 * p);
      Wrap(if low >= p then low - 2 * p else low)
  }

  /** Byte i of x, counted from the most significant end. */
  function Byte(i: Word, x: Word): Word {
    if i >= 32 then 0 else (x / Pow2(8 * (31 - i))) % 256
  }

  function Shl(s: Word, x: Word): Word {
    if s > 255 then 0 else Wrap(x * Pow2(s))
  }

  function Shr(s: Word, x: Word): Word {
    if s > 255 then 0 else DivBound(x, Pow2(s)); x / Pow2(s)
  }

  function Sar(s: Word, x: Word): Word {
    if s > 255 then (if x >= SIGN_LIMIT then MAX_WORD else 0) else Wrap(ToSigned(x) / Pow2(s))
  }

  lemma DivBound(a: nat, b: nat)
    requires b > 0
    ensures 0 <= a / b <= a
  {
    var q := a / b;
    assert a == q * b + a % b;
    if q > a {
      MulAtLeast(b, q);
    }
  }
}
