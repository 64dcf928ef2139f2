/** What assembled code means: decoding gives back one instruction per item, and every operand is
    what the item stands for (libevmasm/Assembly.cpp:505-682, libevmasm/Instruction.cpp:336-363). */
module AssembledCode {
  import opened Words
  import opened Instructions
  import opened Items
  import opened Machine
  import opened MemoryLaws
  import opened Encoding
  import opened Layouts

  // ----- decoding -----

  /** The opcode announces exactly the operand that follows it. */
  predicate Framed(src: Source, plan: Plan, item: Item) {
    Additional(Head(src, plan, item)) == OperandWidth(src, plan, item)
  }

  /** Every item on its own, decoded. */
  function Expected(src: Source, plan: Plan, res: Resolution, items: seq<Item>): (r: seq<Instr>)
    ensures |r| == |items|
  {
    seq(|items|, k requires 0 <= k < |items| => FirstInstr(Chunk(src, plan, res, items[k])))
  }

  lemma DecodeChunk(src: Source, plan: Plan, res: Resolution, item: Item, rest: seq<Octet>)
    requires Framed(src, plan, item)
    ensures Decode(Chunk(src, plan, res, item) + rest) == [FirstInstr(Chunk(src, plan, res, item))] + Decode(rest)
  {
    hide Operand, OperandWidth, Head, Chunk;
    var c := Chunk(src, plan, res, item);
    ChunkHead(src, plan, res, item);
    DecodeFirst(c, rest);
  }

  lemma DecodeFirst(c: seq<Octet>, rest: seq<Octet>)
    requires c != [] && |c| == 1 + Additional(c[0] as int)
    ensures Decode(c + rest) == [FirstInstr(c)] + Decode(rest)
  {
    hide FromBytes, Pow256, Additional;
    var mem := c + rest;
    assert mem[0] == c[0];
    assert FirstLength(mem) == |c| && mem[|c|..] == rest;
    assert mem[1..|c|] == c[1..] == c[1..|c|];
    assert FirstInstr(mem) == FirstInstr(c);
  }

  lemma DecodeNothing()
    ensures Decode([]) == []
  {
  }

  lemma ChunkHead(src: Source, plan: Plan, res: Resolution, item: Item)
    ensures Chunk(src, plan, res, item)[0] as int == Head(src, plan, item)
    ensures Chunk(src, plan, res, item)[1..] == Operand(src, plan, res, item)
  {
    hide Operand, Head;
    SmallOctet(Head(src, plan, item));
  }

  /** Framed items decode one by one, whatever follows them. */
  lemma {:induction false} DecodeFramed(src: Source, plan: Plan, res: Resolution, items: seq<Item>, rest: seq<Octet>)
    requires forall k | 0 <= k < |items| :: Framed(src, plan, items[k])
    ensures Decode(Code(src, plan, res, items) + rest) == Expected(src, plan, res, items) + Decode(rest)
  {
    hide Chunk, Framed, Decode, FirstInstr;
    if items == [] {
      assert Code(src, plan, res, items) + rest == rest;
    } else {
      var front, last := items[..|items| - 1], items[|items| - 1];
      var c := Chunk(src, plan, res, last);
      assert Code(src, plan, res, items) + rest == Code(src, plan, res, front) + (c + rest);
      DecodeFramed(src, plan, res, front, c + rest);
      DecodeChunk(src, plan, res, last, rest);
      assert Expected(src, plan, res, items) == Expected(src, plan, res, front) + [FirstInstr(c)];
    }
  }

  // ----- when decoding gives back the items -----

  predicate IsPushOperation(item: Item) {
    item.Operation? && IsPush(item.instr)
  }

  /** Push opcodes that were given as plain operations, without an operand, can only be the last item. */
  predicate PushOperationsLast(items: seq<Item>) {
    forall k | 0 <= k < |items| - 1 :: !IsPushOperation(items[k])
  }

  /** Items other than operations are framed; this follows from a plan that was not wrapped around. */
  predicate OperandsFramed(src: Source, plan: Plan, items: seq<Item>) {
    forall k | 0 <= k < |items| :: !items[k].Operation? ==> Framed(src, plan, items[k]) && Head(src, plan, items[k]) != STOP
  }

  /** Decoding gives back the items one by one if and only if no operation is a push opcode, except
      possibly the last. */
  lemma DecodesExactly(src: Source, plan: Plan, res: Resolution, items: seq<Item>)
    requires OperandsFramed(src, plan, items)
    ensures Decode(Code(src, plan, res, items)) == Expected(src, plan, res, items) <==> PushOperationsLast(items)
  {
    hide Chunk, Framed, Decode, FirstInstr, Code, Expected;
    if PushOperationsLast(items) {
      DecodesForward(src, plan, res, items);
    } else {
      var k := FirstSwallower(items);
      NotDecoded(src, plan, res, items, k);
    }
  }

  lemma {:induction false} FirstSwallower(items: seq<Item>) returns (k: nat)
    requires !PushOperationsLast(items)
    ensures k < |items| - 1 && IsPushOperation(items[k]) && forall j | 0 <= j < k :: !IsPushOperation(items[j])
  {
    k := 0;
    while !IsPushOperation(items[k])
      decreases |items| - k
      invariant k < |items| - 1 && forall j | 0 <= j < k :: !IsPushOperation(items[j])
    {
      var j :| 0 <= j < |items| - 1 && IsPushOperation(items[j]);
      assert j > k;
      k := k + 1;
    }
  }

  lemma OperationFramed(src: Source, plan: Plan, item: Item)
    requires item.Operation?
    ensures Framed(src, plan, item) <==> !IsPushOperation(item)
  {
  }

  lemma DecodesForward(src: Source, plan: Plan, res: Resolution, items: seq<Item>)
    requires OperandsFramed(src, plan, items) && PushOperationsLast(items)
    ensures Decode(Code(src, plan, res, items)) == Expected(src, plan, res, items)
  {
    hide Chunk, Framed, FirstInstr, Decode;
    if items != [] {
      var front, last := items[..|items| - 1], items[|items| - 1];
      var c := Chunk(src, plan, res, last);
      FrontFramed(src, plan, items, |items| - 1);
      DecodeFramed(src, plan, res, front, c);
      DecodeLast(src, plan, res, last);
      assert Expected(src, plan, res, items) == Expected(src, plan, res, front) + [FirstInstr(c)];
    } else {
      DecodeNothing();
    }
  }

  lemma FrontFramed(src: Source, plan: Plan, items: seq<Item>, n: nat)
    requires OperandsFramed(src, plan, items) && n <= |items|
    requires forall j | 0 <= j < n :: !IsPushOperation(items[j])
    ensures forall k | 0 <= k < n :: Framed(src, plan, items[..n][k])
  {
    hide Framed, IsPushOperation;
    forall k | 0 <= k < n
      ensures Framed(src, plan, items[..n][k])
    {
      if items[k].Operation? {
        OperationFramed(src, plan, items[k]);
      }
    }
  }

  lemma DecodeLast(src: Source, plan: Plan, res: Resolution, item: Item)
    requires item.Operation? || Framed(src, plan, item)
    ensures Decode(Chunk(src, plan, res, item)) == [FirstInstr(Chunk(src, plan, res, item))]
  {
    hide Operand, OperandWidth, Head, FirstInstr;
    var c := Chunk(src, plan, res, item);
    ChunkHead(src, plan, res, item);
    if item.Operation? {
      OperationChunk(src, plan, res, item);
    }
    assert FirstLength(c) == |c|;
    assert c[|c|..] == [];
  }

  lemma OperationChunk(src: Source, plan: Plan, res: Resolution, item: Item)
    requires item.Operation?
    ensures Chunk(src, plan, res, item) == [item.instr as Octet] && FirstInstr(Chunk(src, plan, res, item)) == Instr(item.instr, 0)
  {
    SmallOctet(item.instr);
    var c := Chunk(src, plan, res, item);
    assert c[1..1] == [];
  }

  /** The code behind the first k items. */
  function Rest(src: Source, plan: Plan, res: Resolution, items: seq<Item>, k: nat): seq<Octet>
    requires k <= |items|
    decreases |items| - k
  {
    if k == |items| then [] else Chunk(src, plan, res, items[k]) + Rest(src, plan, res, items, k + 1)
  }

  lemma {:induction false} RestIsRest(src: Source, plan: Plan, res: Resolution, items: seq<Item>, k: nat)
    requires k <= |items|
    ensures Code(src, plan, res, items) == Code(src, plan, res, items[..k]) + Rest(src, plan, res, items, k)
    decreases |items| - k
  {
    hide Chunk;
    if k == |items| {
      assert items[..k] == items;
    } else {
      RestIsRest(src, plan, res, items, k + 1);
      assert items[..k + 1] == items[..k] + [items[k]];
      CodeSnoc(src, plan, res, items[..k], items[k]);
    }
  }

  predicate AllStops(items: seq<Item>, from: nat, to: nat) {
    forall i | from <= i < to && i < |items| :: items[i] == Operation(STOP)
  }

  /** A decoder that has swallowed some STOPs never catches up. */
  lemma {:induction false} NoCatchUp(src: Source, plan: Plan, res: Resolution, items: seq<Item>, m: nat, j: nat)
    requires OperandsFramed(src, plan, items)
    requires 1 <= j <= m <= |items| && AllStops(items, m - j, m)
    ensures Decode(Rest(src, plan, res, items, m)) != Expected(src, plan, res, items)[m - j..]
    decreases |items| - m
  {
    hide Chunk, FirstInstr, Framed, Decode;
    var expected := Expected(src, plan, res, items);
    var rest := Rest(src, plan, res, items, m);
    if m == |items| {
      DecodeNothing();
    } else if Decode(rest) == expected[m - j..] {
      assert items[m - j] == Operation(STOP);
      OperationChunk(src, plan, res, items[m - j]);
      assert expected[m - j] == Instr(STOP, 0);
      FirstIsStop(src, plan, res, items[m], Rest(src, plan, res, items, m + 1));
      assert Decode(rest)[0] == Instr(STOP, 0);
      assert items[m] == Operation(STOP);
      OperationChunk(src, plan, res, items[m]);
      OperationFramed(src, plan, items[m]);
      DecodeChunk(src, plan, res, items[m], Rest(src, plan, res, items, m + 1));
      assert Decode(rest)[1..] == Decode(Rest(src, plan, res, items, m + 1));
      assert expected[m - j..][1..] == expected[m + 1 - j..];
      NoCatchUp(src, plan, res, items, m + 1, j);
    }
  }

  /** Only a STOP item starts with the byte of STOP. */
  lemma FirstIsStop(src: Source, plan: Plan, res: Resolution, item: Item, rest: seq<Octet>)
    requires !item.Operation? ==> Head(src, plan, item) != STOP
    ensures Decode(Chunk(src, plan, res, item) + rest)[0].opcode == Head(src, plan, item)
    ensures Head(src, plan, item) == STOP ==> item == Operation(STOP)
  {
    hide OperandWidth, Operand;
    ChunkHead(src, plan, res, item);
  }

  /** A push opcode without an operand that is followed by other items swallows some of them. */
  lemma NotDecoded(src: Source, plan: Plan, res: Resolution, items: seq<Item>, k: nat)
    requires OperandsFramed(src, plan, items)
    requires k < |items| - 1 && IsPushOperation(items[k]) && forall j | 0 <= j < k :: !IsPushOperation(items[j])
    ensures Decode(Code(src, plan, res, items)) != Expected(src, plan, res, items)
  {
    hide Chunk, FirstInstr, Framed, Decode, Code, Rest, IsPushOperation, OperandsFramed;
    var expected := Expected(src, plan, res, items);
    RestIsRest(src, plan, res, items, k);
    FrontFramed(src, plan, items, k);
    DecodeFramed(src, plan, res, items[..k], Rest(src, plan, res, items, k));
    assert expected[..k] == Expected(src, plan, res, items[..k]);
    hide Expected;
    SwallowsSome(src, plan, res, items, k);
    assert Decode(Code(src, plan, res, items))[k..] == Decode(Rest(src, plan, res, items, k));
  }

  lemma SwallowsSome(src: Source, plan: Plan, res: Resolution, items: seq<Item>, k: nat)
    requires OperandsFramed(src, plan, items)
    requires k < |items| - 1 && IsPushOperation(items[k])
    ensures Decode(Rest(src, plan, res, items, k)) != Expected(src, plan, res, items)[k..]
  {
    hide Chunk, FirstInstr, Framed, Decode, OperandsFramed;
    var expected := Expected(src, plan, res, items);
    var rest := Rest(src, plan, res, items, k + 1);
    OperationChunk(src, plan, res, items[k]);
    RestNonEmpty(src, plan, res, items, k + 1);
    var a := Swallowed(items[k].instr, rest);
    if Decode(Rest(src, plan, res, items, k)) == expected[k..] {
      assert expected[k..][0] == Instr(items[k].instr, 0);
      assert expected[k..][1..] == expected[k + 1..];
      StopsSwallowed(src, plan, res, items, k + 1, a);
      NoCatchUp(src, plan, res, items, k + 1 + a, a);
    }
  }

  lemma RestNonEmpty(src: Source, plan: Plan, res: Resolution, items: seq<Item>, k: nat)
    requires k < |items|
    ensures |Rest(src, plan, res, items, k)| > 0
  {
  }

  /** What a push opcode does with the code behind it. */
  lemma Swallowed(op: Opcode, rest: seq<Octet>) returns (a: nat)
    requires IsPush(op)
    ensures a == Min(Additional(op), |rest|) && (rest != [] ==> a >= 1)
    ensures Decode([op as Octet] + rest) == [FirstInstr([op as Octet] + rest)] + Decode(rest[a..])
    ensures FirstInstr([op as Octet] + rest).data == 0 ==> forall i | 0 <= i < a :: rest[i] == 0
  {
    var mem := [op as Octet] + rest;
    SmallOctet(op);
    a := Min(Additional(op), |rest|);
    assert mem[FirstLength(mem)..] == rest[a..];
    assert mem[1..1 + a] == rest[..a];
    ZeroProduct(FromBytes(rest[..a]), Pow256(Additional(op) - a));
    if FromBytes(rest[..a]) == 0 {
      AllZero(rest[..a]);
    }
  }

  lemma ZeroProduct(x: nat, p: nat)
    requires p > 0
    ensures x * p == 0 ==> x == 0
  {
    if x > 0 {
      MulAtLeast(x, p);
    }
  }

  lemma {:induction false} AllZero(bytes: seq<Octet>)
    requires FromBytes(bytes) == 0
    ensures forall i | 0 <= i < |bytes| :: bytes[i] == 0
  {
    if bytes != [] {
      AllZero(bytes[..|bytes| - 1]);
      OctetRoundTrip(bytes[|bytes| - 1]);
    }
  }

  /** Zero bytes in front of the rest of the code are STOP items. */
  lemma {:induction false} StopsSwallowed(src: Source, plan: Plan, res: Resolution, items: seq<Item>, k: nat, a: nat)
    requires OperandsFramed(src, plan, items) && k <= |items|
    requires a <= |Rest(src, plan, res, items, k)|
    requires forall i | 0 <= i < a :: Rest(src, plan, res, items, k)[i] == 0
    ensures k + a <= |items| && AllStops(items, k, k + a)
    ensures Rest(src, plan, res, items, k)[a..] == Rest(src, plan, res, items, k + a)
    decreases a
  {
    hide Framed;
    if a > 0 {
      var c, rest := Chunk(src, plan, res, items[k]), Rest(src, plan, res, items, k + 1);
      ChunkHead(src, plan, res, items[k]);
      assert (c + rest)[0] == 0;
      FirstIsStop(src, plan, res, items[k], rest);
      OperationChunk(src, plan, res, items[k]);
      hide Chunk;
      assert (c + rest)[1..] == rest;
      assert forall i | 0 <= i < a - 1 :: rest[i] == (c + rest)[i + 1];
      StopsSwallowed(src, plan, res, items, k + 1, a - 1);
      assert (c + rest)[a..] == rest[a - 1..];
    }
  }
}
