/** How many bytes the assembler reserves for addresses (libevmasm/Assembly.cpp:96-109 and 510-532).
    Sizes are 32-bit numbers in the original and wrap around here as they do there. */
module Widths {
  import opened Wrappers
  import opened Items
  import opened Encoding
  import opened Layouts

  const U32: int := 0x1_0000_0000

  function DataBytes(data: seq<DataEntry>): nat {
    if data == [] then 0 else |data[0].bytes| + DataBytes(data[1..])
  }

  function SubBytes(subs: seq<SubObject>): nat {
    if subs == [] then 0 else |subs[0].bytecode| + SubBytes(subs[1..])
  }

  /** The size of the code and the data when addresses take `tagSize` bytes. */
  function Estimate(src: Source, tagSize: nat): nat {
    1 + DataBytes(src.data) + CodeBytes(src.items, tagSize)
  }

  lemma SmallWidth(n: nat)
    requires n < U32
    ensures BytesRequired(n) <= 4
  {
    assert Pow256(4) == U32;
    if BytesRequired(n) > 4 {
      Pow256Monotone(4, BytesRequired(n) - 1);
    }
  }

  /** The bytes an address takes in code whose size was estimated with `tagSize` bytes per address. */
  function Needed(src: Source, tagSize: nat): (r: nat)
    ensures r <= 4
  {
    SmallWidth(Estimate(src, tagSize) % U32);
    BytesRequired(Estimate(src, tagSize) % U32)
  }

  /** The first width from `tagSize` on that is enough for the code it leads to. */
  function FindTagSize(src: Source, tagSize: nat): (r: nat)
    ensures tagSize <= r <= Max(4, tagSize)
    ensures Needed(src, r) <= r
    ensures forall t | tagSize <= t < r :: Needed(src, t) > t
    decreases if tagSize < 4 then 4 - tagSize else 0
  {
    if Needed(src, tagSize) <= tagSize then tagSize else FindTagSize(src, tagSize + 1)
  }

  method EstimateBytes(src: Source, tagSize: nat) returns (ret: nat)
    ensures ret == Estimate(src, tagSize) % U32
  {
    hide CodeBytes, DataBytes;
    ret := AddData(1, src.data);
    ret := AddItems(ret, src.items, tagSize);
    WrapSum(1, DataBytes(src.data), CodeBytes(src.items, tagSize));
  }

  method AddData(start: nat, data: seq<DataEntry>) returns (total: nat)
    ensures total == (start + DataBytes(data)) % U32
  {
    total := start % U32;
    var i := 0;
    assert data[0..] == data;
    while i < |data|
      invariant 0 <= i <= |data| && 0 <= total < U32
      invariant (total + DataBytes(data[i..])) % U32 == (start + DataBytes(data)) % U32
    {
      assert data[i..][0] == data[i] && data[i..][1..] == data[i + 1..];
      WrapSum(total, |data[i].bytes|, DataBytes(data[i + 1..]));
      total := (total + |data[i].bytes|) % U32;
      i := i + 1;
    }
  }

  method AddItems(start: nat, items: seq<Item>, tagSize: nat) returns (total: nat)
    ensures total == (start + CodeBytes(items, tagSize)) % U32
  {
    hide ItemBytes;
    total := start % U32;
    var i := 0;
    assert items[0..] == items;
    while i < |items|
      invariant 0 <= i <= |items| && 0 <= total < U32
      invariant (total + CodeBytes(items[i..], tagSize)) % U32 == (start + CodeBytes(items, tagSize)) % U32
    {
      assert items[i..][0] == items[i] && items[i..][1..] == items[i + 1..];
      WrapSum(total, ItemBytes(items[i], tagSize), CodeBytes(items[i + 1..], tagSize));
      total := (total + ItemBytes(items[i], tagSize)) % U32;
      i := i + 1;
    }
  }

  lemma WrapSum(a: nat, b: nat, c: nat)
    ensures ((a + b) % U32 + c) % U32 == (a + (b + c)) % U32
  {
  }

  /** The width search; it ends with a width of at most four bytes or right at the start. */
  method SearchWidth(src: Source, start: nat) returns (ret: nat)
    ensures ret == Estimate(src, FindTagSize(src, start)) % U32
  {
    hide Estimate, BytesRequired;
    var tagSize: nat := start;
    while true
      invariant start <= tagSize && FindTagSize(src, start) == FindTagSize(src, tagSize)
      decreases if tagSize < 4 then 4 - tagSize else 0
    {
      ret := EstimateBytes(src, tagSize);
      SmallWidth(ret);
      var width := CountBytes(ret);
      if width <= tagSize {
        return;
      }
      tagSize := tagSize + 1;
    }
  }

  // ----- sub-assemblies -----

  function LargestPosition(positions: seq<Option<nat>>, least: nat): nat {
    if positions == [] then least
    else LargestPosition(positions[1..], if positions[0].Some? && positions[0].value > least then positions[0].value else least)
  }

  function LargestTag(subs: seq<SubObject>, least: nat): nat {
    if subs == [] then least else LargestTag(subs[1..], LargestPosition(subs[0].tagPositions, least))
  }

  lemma {:induction false} LargestPositionBounds(positions: seq<Option<nat>>, least: nat)
    ensures least <= LargestPosition(positions, least)
    ensures forall i | 0 <= i < |positions| && positions[i].Some? :: positions[i].value <= LargestPosition(positions, least)
  {
    if positions != [] {
      LargestPositionBounds(positions[1..], if positions[0].Some? && positions[0].value > least then positions[0].value else least);
      assert forall i | 1 <= i < |positions| :: positions[i] == positions[1..][i - 1];
    }
  }

  /** Every tag position of a sub-assembly is at most the starting width of the search. */
  lemma {:induction false} LargestTagBounds(subs: seq<SubObject>, least: nat)
    ensures least <= LargestTag(subs, least)
    ensures forall s, i | 0 <= s < |subs| && 0 <= i < |subs[s].tagPositions| && subs[s].tagPositions[i].Some? ::
              subs[s].tagPositions[i].value <= LargestTag(subs, least)
  {
    hide LargestPosition;
    if subs != [] {
      LargestPositionBounds(subs[0].tagPositions, least);
      LargestTagBounds(subs[1..], LargestPosition(subs[0].tagPositions, least));
      assert forall s | 1 <= s < |subs| :: subs[s] == subs[1..][s - 1];
    }
  }

  method SubTagSize(subs: seq<SubObject>) returns (size: nat)
    ensures size == LargestTag(subs, 1)
  {
    hide LargestPosition;
    size := 1;
    var i := 0;
    assert subs[0..] == subs;
    while i < |subs|
      invariant 0 <= i <= |subs| && LargestTag(subs, 1) == LargestTag(subs[i..], size)
    {
      assert subs[i..][0] == subs[i] && subs[i..][1..] == subs[i + 1..];
      size := LargerPosition(subs[i].tagPositions, size);
      i := i + 1;
    }
  }

  method LargerPosition(positions: seq<Option<nat>>, least: nat) returns (size: nat)
    ensures size == LargestPosition(positions, least)
  {
    size := least;
    var j := 0;
    assert positions[0..] == positions;
    while j < |positions|
      invariant 0 <= j <= |positions| && LargestPosition(positions, least) == LargestPosition(positions[j..], size)
    {
      assert positions[j..][0] == positions[j] && positions[j..][1..] == positions[j + 1..];
      if positions[j].Some? && positions[j].value > size {
        size := positions[j].value;
      }
      j := j + 1;
    }
  }

  // ----- the plan -----

  function StartSize(src: Source): nat {
    LargestTag(src.subs, 1) % U32
  }

  function TagSizeOf(src: Source): nat {
    FindTagSize(src, StartSize(src))
  }

  /** The size of everything that is emitted. */
  function TotalEstimate(src: Source, tagSize: nat): nat {
    Estimate(src, tagSize) % U32 + 1 + |src.auxiliary| + SubBytes(src.subs)
  }

  function PlanOf(src: Source): Plan {
    var t := TagSizeOf(src);
    Plan(Needed(src, t), BytesRequired(TotalEstimate(src, t) % U32))
  }

  /** The numbers of bytes reserved for tags and for other references. */
  method ComputePlan(src: Source) returns (plan: Plan)
    ensures plan == PlanOf(src)
  {
    hide Estimate, BytesRequired, LargestTag, FindTagSize;
    var start := SubTagSize(src.subs);
    var bytesRequiredForCode := SearchWidth(src, start % U32);
    var tagWidth := CountBytes(bytesRequiredForCode);
    var total := AddSubs((bytesRequiredForCode + 1 + |src.auxiliary|) % U32, src.subs);
    WrapSum(bytesRequiredForCode + 1, |src.auxiliary|, SubBytes(src.subs));
    var dataWidth := CountBytes(total);
    plan := Plan(tagWidth, dataWidth);
  }

  method AddSubs(start: nat, subs: seq<SubObject>) returns (total: nat)
    ensures total == (start + SubBytes(subs)) % U32
  {
    total := start % U32;
    var i := 0;
    assert subs[0..] == subs;
    while i < |subs|
      invariant 0 <= i <= |subs| && 0 <= total < U32
      invariant (total + SubBytes(subs[i..])) % U32 == (start + SubBytes(subs)) % U32
    {
      assert subs[i..][0] == subs[i] && subs[i..][1..] == subs[i + 1..];
      WrapSum(total, |subs[i].bytecode|, SubBytes(subs[i + 1..]));
      total := (total + |subs[i].bytecode|) % U32;
      i := i + 1;
    }
  }

  // ----- when the estimate is enough -----

  /** The assembled object stays below four gigabytes. */
  predicate Fits(src: Source) {
    LargestTag(src.subs, 1) < U32 &&
    Estimate(src, Max(4, LargestTag(src.subs, 1))) + 1 + |src.auxiliary| + SubBytes(src.subs) < U32
  }

  /** References to data are not wider than the addresses the estimate was made for. */
  predicate RoomForData(src: Source) {
    || PlanOf(src).dataWidth <= TagSizeOf(src)
    || forall k | 0 <= k < |src.items| :: !src.items[k].PushData? && !src.items[k].PushSub?
  }

  lemma {:induction false} CodeBytesMonotone(items: seq<Item>, s: nat, t: nat)
    requires s <= t
    ensures CodeBytes(items, s) <= CodeBytes(items, t)
  {
    if items != [] {
      CodeBytesMonotone(items[1..], s, t);
    }
  }

  lemma {:induction false} SubBytesAt(subs: seq<SubObject>, i: nat)
    requires i < |subs|
    ensures |subs[i].bytecode| <= SubBytes(subs)
  {
    if i > 0 {
      SubBytesAt(subs[1..], i - 1);
    }
  }

  /** What the plan of an assembly that fits looks like. */
  lemma PlanFacts(src: Source)
    requires Fits(src)
    ensures var t, plan := TagSizeOf(src), PlanOf(src);
            && plan.tagWidth == BytesRequired(Estimate(src, t)) <= t
            && plan.dataWidth == BytesRequired(Estimate(src, t) + 1 + |src.auxiliary| + SubBytes(src.subs))
            && 1 <= plan.tagWidth <= 4 && 1 <= plan.dataWidth <= 4
            && LargestTag(src.subs, 1) <= t
  {
    hide LargestTag, FindTagSize, CodeBytes, DataBytes, SubBytes, BytesRequired;
    var t, m := TagSizeOf(src), LargestTag(src.subs, 1);
    var e := Estimate(src, t);
    LargestTagBounds(src.subs, 1);
    CodeBytesMonotone(src.items, t, Max(4, m));
    assert e % U32 == e;
    var total := e + 1 + |src.auxiliary| + SubBytes(src.subs);
    assert total % U32 == total;
    SmallWidth(e);
    SmallWidth(total);
    AtLeastOne(e);
    AtLeastOne(total);
  }

  lemma AtLeastOne(n: nat)
    requires n > 0
    ensures BytesRequired(n) >= 1
  {
  }
}
