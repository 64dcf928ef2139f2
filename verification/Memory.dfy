/** Laws of byte memory: what a word reads back as, and which words a write leaves alone. */
module MemoryLaws {
  import opened Words
  import opened Items
  import opened Machine

  lemma DivDiv(v: nat, p: nat)
    requires p > 0
    ensures v / (256 * p) == (v / p) / 256
  {
    var q, r := v / p, v % p;
    var q', r' := q / 256, q % 256;
    assert v == q * p + r;
    assert q * p == q' * (256 * p) + r' * p by {
      assert q * p == (q' * 256 + r') * p;
    }
    assert r' * p <= 255 * p by {
      MulMonotone(r', 255, p);
    }
    DivModUnique(v, 256 * p, q', r' * p + r);
  }

  lemma MulMonotone(a: nat, b: nat, p: nat)
    requires a <= b
    ensures a * p <= b * p
  {
    assert (b - a) * p >= 0;
  }

  /** The leading bytes of a word make up its leading part. */
  lemma {:induction false} LeadingBytes(v: Word, bytes: seq<Octet>)
    requires |bytes| <= 32
    requires forall i | 0 <= i < |bytes| :: bytes[i] == ByteOf(v, i)
    ensures FromBytes(bytes) == v / Pow256(32 - |bytes|)
  {
    if bytes == [] {
      WholeWord(v, 32);
    } else {
      var n := |bytes| - 1;
      LeadingBytes(v, bytes[..n]);
      assert Pow256(32 - n) == 256 * Pow256(31 - n);
      DivDiv(v, Pow256(31 - n));
      OctetOfDigit(v, n);
    }
  }

  lemma WholeWord(v: Word, n: nat)
    requires n == 32
    ensures v / Pow256(n) == 0
  {
    Pow256Word(n);
  }

  lemma OctetOfDigit(v: Word, i: nat)
    requires i < 32
    ensures ByteOf(v, i) as int == (v / Pow256(31 - i)) % 256
  {
    hide Pow256;
    SmallOctet((v / Pow256(31 - i)) % 256);
  }

  lemma SmallOctet(x: int)
    requires 0 <= x < 256
    ensures (x as Octet) as int == x
  {
    var b := OctetReached(x);
    OctetRoundTrip(b);
  }

  lemma NextOctet(b: Octet)
    requires b != 0xff
    ensures (b + 1) as int == b as int + 1
  {
  }

  lemma {:induction false} OctetReached(x: nat) returns (b: Octet)
    requires x < 256
    ensures b as int == x
  {
    if x == 0 {
      b := 0;
    } else {
      b := OctetReached(x - 1);
      NextOctet(b);
      b := b + 1;
    }
  }

  /** Taking a number apart into the bytes it was made of. */
  lemma {:induction false} DigitOfBytes(bytes: seq<Octet>, i: nat)
    requires i < |bytes|
    ensures (FromBytes(bytes) / Pow256(|bytes| - 1 - i)) % 256 == bytes[i] as int
  {
    var n := |bytes| - 1;
    var front := FromBytes(bytes[..n]);
    assert FromBytes(bytes) == front * 256 + bytes[n] as int;
    if i == n {
      assert Pow256(0) == 1;
      LowByte(front, bytes[n]);
    } else {
      DigitOfBytes(bytes[..n], i);
      assert Pow256(n - i) == 256 * Pow256(n - 1 - i);
      DivSwap(FromBytes(bytes), Pow256(n - 1 - i));
      LowByte(front, bytes[n]);
    }
  }

  lemma LowByte(front: nat, x: Octet)
    ensures (front * 256 + x as int) / 256 == front && (front * 256 + x as int) % 256 == x as int
  {
  }

  lemma DivSwap(v: nat, p: nat)
    requires p > 0
    ensures v / (256 * p) == (v / 256) / p
  {
    var q, r := v / 256, v % 256;
    var q', r' := q / p, q % p;
    assert v == 256 * q + r;
    assert 256 * q == q' * (256 * p) + 256 * r' by {
      assert q == q' * p + r';
      assert 256 * (q' * p) == q' * (256 * p);
    }
    DivModUnique(v, 256 * p, q', 256 * r' + r);
  }

  lemma OctetRoundTrip(x: Octet)
    ensures (x as int) as Octet == x
  {
  }

  /** A word that was written reads back. */
  lemma ReadBack(m: Memory, a: nat, v: Word)
    ensures ReadWord(WriteWord(m, a, v), a) == v
  {
    hide ByteOf, FromBytes;
    var bytes := ReadBytes(WriteWord(m, a, v), a, 32);
    LeadingBytes(v, bytes);
    assert Pow256(0) == 1;
  }

  /** Writing does not touch words that do not overlap. */
  lemma ReadApart(m: Memory, a: nat, b: nat, v: Word)
    requires Abs(a as int - b as int) >= 32
    ensures ReadWord(WriteWord(m, a, v), b) == ReadWord(m, b)
  {
    hide ByteOf, FromBytes;
    assert ReadBytes(WriteWord(m, a, v), b, 32) == ReadBytes(m, b, 32);
  }

  /** The bytes of a word that was read. */
  lemma ReadDigits(m: Memory, a: nat, i: nat)
    requires i < 32
    ensures ByteOf(ReadWord(m, a), i) == m[a + i]
  {
    hide FromBytes;
    var bytes := ReadBytes(m, a, 32);
    DigitOfBytes(bytes, i);
    OctetRoundTrip(bytes[i]);
  }

  /** Writing a word where it already is changes nothing. */
  lemma WriteSame(m: Memory, a: nat)
    ensures WriteWord(m, a, ReadWord(m, a)) == m
  {
    hide ByteOf, ReadWord;
    forall b: nat
      ensures WriteWord(m, a, ReadWord(m, a))[b] == m[b]
    {
      if a <= b < a + 32 {
        ReadDigits(m, a, b - a);
      }
    }
  }
}
