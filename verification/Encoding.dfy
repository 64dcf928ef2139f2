/** Big-endian numbers (libdevcore/CommonData.h) and the decoding of byte code
    (libevmasm/Instruction.cpp). */
module Encoding {
  import opened Words
  import opened Instructions
  import opened Items
  import opened Machine
  import opened MemoryLaws

  // ----- big-endian numbers -----

  /** The n least significant bytes of a number, the most significant one first. */
  function BigEndian(v: nat, n: nat): (b: seq<Octet>)
    ensures |b| == n
  {
    if n == 0 then [] else BigEndian(v / 256, n - 1) + [(v % 256) as Octet]
  }

  lemma {:induction false} BigEndianValue(v: nat, n: nat)
    ensures FromBytes(BigEndian(v, n)) == v % Pow256(n)
  {
    if n != 0 {
      BigEndianValue(v / 256, n - 1);
      var b := BigEndian(v, n);
      assert b[..n - 1] == BigEndian(v / 256, n - 1);
      SmallOctet(v % 256);
      ModScale(v, Pow256(n - 1));
    }
  }

  lemma ModScale(v: nat, p: nat)
    requires p > 0
    ensures v % (256 * p) == ((v / 256) % p) * 256 + v % 256
  {
    var q, r := (v / 256) / p, (v / 256) % p;
    assert v / 256 == q * p + r;
    assert v == q * (256 * p) + (r * 256 + v % 256) by {
      assert v == 256 * (v / 256) + v % 256;
      assert 256 * (q * p) == q * (256 * p);
    }
    DivModUnique(v, 256 * p, q, r * 256 + v % 256);
  }

  /** A number that fits reads back. */
  lemma BigEndianRoundTrip(v: nat, n: nat)
    requires v < Pow256(n)
    ensures FromBytes(BigEndian(v, n)) == v
  {
    BigEndianValue(v, n);
    DivModUnique(v, Pow256(n), 0, v);
  }

  /** Bytes are the big-endian form of their value. */
  lemma {:induction false} FromBytesRoundTrip(b: seq<Octet>)
    ensures BigEndian(FromBytes(b), |b|) == b
  {
    if b != [] {
      var n := |b| - 1;
      FromBytesRoundTrip(b[..n]);
      LowByte(FromBytes(b[..n]), b[n]);
      OctetRoundTrip(b[n]);
    }
  }

  lemma {:induction false} ZeroBytes(n: nat)
    ensures BigEndian(0, n) == seq(n, i => 0) && FromBytes(BigEndian(0, n)) == 0
  {
    BigEndianRoundTrip(0, n);
    if n != 0 {
      ZeroBytes(n - 1);
    }
  }

  /** A buffer with some of its bytes overwritten. */
  function Patched(buffer: seq<Octet>, at: nat, bytes: seq<Octet>): seq<Octet>
    requires at + |bytes| <= |buffer|
  {
    buffer[..at] + bytes + buffer[at + |bytes|..]
  }

  /** Writes a number into a part of a buffer, from its last byte to its first. */
  method ToBigEndian(buffer: seq<Octet>, at: nat, width: nat, value: nat) returns (r: seq<Octet>)
    requires at + width <= |buffer|
    ensures r == Patched(buffer, at, BigEndian(value, width))
  {
    r := buffer;
    var v, i := value, width;
    ghost var done: seq<Octet> := [];
    while i != 0
      invariant 0 <= i <= width && i + |done| == width
      invariant r == Patched(buffer, at + i, done)
      invariant BigEndian(value, width) == BigEndian(v, i) + done
    {
      var b := (v % 256) as Octet;
      PatchOneMore(buffer, at + i, done, b);
      r := r[at + i - 1 := b];
      done := [b] + done;
      v, i := v / 256, i - 1;
    }
  }

  lemma PatchOneMore(buffer: seq<Octet>, at: nat, done: seq<Octet>, b: Octet)
    requires 0 < at && at + |done| <= |buffer|
    ensures Patched(buffer, at, done)[at - 1 := b] == Patched(buffer, at - 1, [b] + done)
  {
  }

  /** Reads a number of type `base` from bytes. */
  method FromBigEndian(bytes: seq<Octet>, base: nat) returns (r: nat)
    requires base > 0
    ensures r == FromBytes(bytes) % base
  {
    r := 0;
    var i := 0;
    DivModUnique(0, base, 0, 0);
    while i < |bytes|
      invariant 0 <= i <= |bytes| && r == FromBytes(bytes[..i]) % base
    {
      assert bytes[..i + 1][..i] == bytes[..i];
      ModStep(FromBytes(bytes[..i]), base, bytes[i] as int);
      r := (r * 256 + bytes[i] as int) % base;
      i := i + 1;
    }
    assert bytes[..i] == bytes;
  }

  lemma ModStep(x: nat, base: nat, b: nat)
    requires base > 0
    ensures ((x % base) * 256 + b) % base == (x * 256 + b) % base
  {
    var q, r := x / base, x % base;
    var y := r * 256 + b;
    var q', r' := y / base, y % base;
    assert x == q * base + r && y == q' * base + r';
    assert x * 256 + b == (q * 256 + q') * base + r' by {
      assert (q * base) * 256 == (q * 256) * base;
    }
    DivModUnique(x * 256 + b, base, q * 256 + q', r');
  }

  /** Counts the bytes of a number. */
  method CountBytes(n: nat) returns (r: nat)
    ensures r == BytesRequired(n)
  {
    var v := n;
    r := 0;
    while v != 0
      invariant r + BytesRequired(v) == BytesRequired(n)
    {
      v, r := v / 256, r + 1;
    }
  }

  // ----- decoding -----

  /** A decoded instruction and its operand. */
  datatype Instr = Instr(opcode: Opcode, data: Word)

  lemma OperandFits(bytes: seq<Octet>, n: nat)
    requires |bytes| <= n <= 32
    ensures FromBytes(bytes) * Pow256(n - |bytes|) < WORD_BASE
  {
    FromBytesBound(bytes);
    Pow256Add(|bytes|, n - |bytes|);
    StrictScale(FromBytes(bytes), Pow256(|bytes|), Pow256(n - |bytes|));
    WordBound(n);
  }

  lemma StrictScale(x: int, y: int, p: int)
    requires x < y && p > 0
    ensures x * p < y * p
  {
    MulAtLeast(y - x, p);
    assert (y - x) * p == y * p - x * p;
  }

  lemma WordBound(n: nat)
    requires n <= 32
    ensures Pow256(n) <= WORD_BASE
  {
    var m := 32;
    Pow256Monotone(n, m);
    Pow256Word(m);
  }

  /** The first instruction of non-empty code; missing operand bytes count as zero. */
  function FirstInstr(mem: seq<Octet>): Instr
    requires mem != []
  {
    var op: Opcode := mem[0] as int;
    var a := Min(Additional(op), |mem| - 1);
    OperandFits(mem[1..1 + a], Additional(op));
    Instr(op, FromBytes(mem[1..1 + a]) * Pow256(Additional(op) - a))
  }

  function FirstLength(mem: seq<Octet>): (n: nat)
    requires mem != []
    ensures 1 <= n <= |mem|
  {
    1 + Min(Additional(mem[0] as int), |mem| - 1)
  }

  function Decode(mem: seq<Octet>): seq<Instr> {
    if mem == [] then [] else [FirstInstr(mem)] + Decode(mem[FirstLength(mem)..])
  }

  /** Goes through the code instruction by instruction. */
  method EachInstruction(mem: seq<Octet>) returns (instrs: seq<Instr>)
    ensures instrs == Decode(mem)
  {
    hide FirstInstr, FirstLength;
    instrs := [];
    var at := 0;
    assert mem[0..] == mem;
    while at < |mem|
      invariant 0 <= at <= |mem| && Decode(mem) == instrs + Decode(mem[at..])
    {
      var instr, next := OneInstruction(mem, at);
      instrs := instrs + [instr];
      assert mem[at..][FirstLength(mem[at..])..] == mem[next..];
      at := next;
    }
  }

  method OneInstruction(mem: seq<Octet>, at: nat) returns (instr: Instr, next: nat)
    requires at < |mem|
    ensures instr == FirstInstr(mem[at..]) && next == at + FirstLength(mem[at..])
  {
    hide FromBytes, Pow256;
    var op: Opcode := mem[at] as int;
    var additional := 0;
    if IsValidInstruction(op) {
      additional := Additional(op);
    }
    var data;
    data, additional, next := ReadOperand(mem, at + 1, additional);
    assert mem[at..][1..next - at] == mem[at + 1..next];
    OperandFits(mem[at + 1..next], Additional(op));
    instr := Instr(op, Wrap(data * Pow256(additional)));
  }

  /** Accumulates operand bytes as long as there are any; the rest of the number is left. */
  method ReadOperand(mem: seq<Octet>, at: nat, additional: nat) returns (data: Word, missing: nat, next: nat)
    requires at <= |mem| && additional <= 32
    ensures next == at + Min(additional, |mem| - at) && missing == additional - (next - at)
    ensures data == FromBytes(mem[at..next])
  {
    data, missing, next := 0, additional, at;
    while missing > 0 && next < |mem|
      invariant at <= next <= |mem| && next - at + missing == additional
      invariant data == FromBytes(mem[at..next])
    {
      OperandStep(mem[at..next], mem[next]);
      assert mem[at..next] + [mem[next]] == mem[at..next + 1];
      data := Wrap(data * 256 + mem[next] as int);
      missing, next := missing - 1, next + 1;
    }
  }

  lemma OperandStep(bytes: seq<Octet>, b: Octet)
    requires |bytes| < 32
    ensures FromBytes(bytes + [b]) == FromBytes(bytes) * 256 + b as int < WORD_BASE
  {
    assert (bytes + [b])[..|bytes|] == bytes;
    FromBytesBound(bytes + [b]);
    WordBound(|bytes| + 1);
  }
}
