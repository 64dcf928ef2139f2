/** The assembler (libevmasm/Assembly.cpp:505-682). */
module Assembling {
  import opened Wrappers
  import opened Words
  import opened Instructions
  import opened Items
  import opened Machine
  import opened Encoding
  import opened Layouts
  import opened Widths

  datatype AssembleError =
    | InvalidItem | UnknownString | UnknownSub | UnknownLibrary
    | InvalidTagPosition | ForeignTag | TagTooLarge | DuplicateTag
    | InvalidSubId | NoSuchTag | TagWithoutPosition | TagTooLargeForSpace

  type Assembled<T> = Fallible<T, AssembleError>

  /** Code whose references are still empty. */
  datatype Draft = Draft(
    bytecode: seq<Octet>,
    tagPositions: seq<Option<nat>>,
    tagRef: seq<Reference>,
    dataRef: seq<Reference>,
    subRef: seq<Reference>,
    sizeRef: seq<Reference>)

  datatype Object = Object(bytecode: seq<Octet>, tagPositions: seq<Option<nat>>)

  /** What the assembly promises: its own tags are below the counter that hands them out, data
      entries have different keys, and sub-assemblies are counted by 64-bit numbers. */
  predicate Declared(src: Source) {
    && 1 <= src.usedTags < U32 && |src.subs| <= SUB_BASE
    && (forall k | 0 <= k < |src.items| :: src.items[k].Tag? && IsLocal(src.items[k].data) ==> src.items[k].data < src.usedTags)
    && (forall i, j | 0 <= i < j < |src.data| :: src.data[i].key != src.data[j].key)
  }

  // ----- positions of tags -----

  predicate IsTag(item: Item, t: nat) {
    item.Tag? && item.data == t
  }

  /** The position of the first item that is not a tag; it serves as the invalid jump destination. */
  function FirstPlain(src: Source, plan: Plan, items: seq<Item>): Option<nat> {
    if items == [] then None
    else
      var front := items[..|items| - 1];
      var p := FirstPlain(src, plan, front);
      if p.Some? || items[|items| - 1].Tag? then p else Some(Extent(src, plan, front))
  }

  predicate PlacedAt(src: Source, plan: Plan, items: seq<Item>, k: nat, positions: seq<Option<nat>>)
    requires k < |items|
  {
    items[k].Tag? ==> 0 < items[k].data < |positions| && positions[items[k].data] == Some(Extent(src, plan, items[..k]))
  }

  ghost predicate HasTag(items: seq<Item>, t: nat) {
    exists k :: 0 <= k < |items| && IsTag(items[k], t)
  }

  /** Every tag that was met is recorded at its position, and nothing else is. */
  ghost predicate TagsPlaced(src: Source, plan: Plan, items: seq<Item>, positions: seq<Option<nat>>) {
    && |positions| == src.usedTags >= 1
    && (forall k | 0 <= k < |items| :: PlacedAt(src, plan, items, k, positions))
    && (forall t | 0 < t < |positions| && positions[t].Some? :: HasTag(items, t))
    && positions[0] == FirstPlain(src, plan, items)
  }

  lemma NoTagsPlaced(src: Source, plan: Plan)
    requires src.usedTags >= 1
    ensures TagsPlaced(src, plan, [], seq(src.usedTags, i => None))
  {
  }

  lemma PlacedSnoc(src: Source, plan: Plan, items: seq<Item>, item: Item, positions: seq<Option<nat>>, positions': seq<Option<nat>>)
    requires TagsPlaced(src, plan, items, positions)
    requires |positions'| == |positions|
    requires !item.Tag? ==> positions' == positions[0 := if positions[0].Some? then positions[0] else Some(Extent(src, plan, items))]
    requires item.Tag? ==> 0 < item.data < |positions| && positions[item.data].None? && positions' == positions[item.data := Some(Extent(src, plan, items))]
    ensures TagsPlaced(src, plan, items + [item], positions')
  {
    hide Extent;
    var more := items + [item];
    forall k | 0 <= k < |more|
      ensures PlacedAt(src, plan, more, k, positions')
    {
      if k < |items| {
        assert PlacedAt(src, plan, items, k, positions);
        assert more[..k] == items[..k] && more[k] == items[k];
      } else {
        assert more[..k] == items;
      }
    }
    forall t | 0 < t < |positions'| && positions'[t].Some?
      ensures HasTag(more, t)
    {
      if positions[t].Some? {
        var k :| 0 <= k < |items| && IsTag(items[k], t);
        assert IsTag(more[k], t);
      } else {
        assert IsTag(more[|items|], t);
      }
    }
    assert more[..|more| - 1] == items;
  }

  // ----- emitting code -----

  ghost predicate Drafted(src: Source, plan: Plan, items: seq<Item>, d: Draft) {
    && d.bytecode == Code(src, plan, Unresolved(), items)
    && d.tagRef == References(src, plan, TagRef, items)
    && d.dataRef == References(src, plan, DataRef, items)
    && d.subRef == References(src, plan, SubRef, items)
    && d.sizeRef == References(src, plan, SizeRef, items)
    && TagsPlaced(src, plan, items, d.tagPositions)
  }

  /** A push instruction for a number. */
  method AppendPush(bytecode: seq<Octet>, width: nat, value: nat) returns (r: seq<Octet>)
    ensures r == bytecode + ([PushOpcode(width) as Octet] + BigEndian(value, width))
  {
    r := bytecode + [PushOpcode(width) as Octet];
    var start := |r|;
    r := r + seq(width, i => 0);
    r := ToBigEndian(r, start, width, value);
  }

  /** A push instruction whose operand is filled in later. */
  method AppendReserved(bytecode: seq<Octet>, width: nat) returns (r: seq<Octet>)
    ensures r == bytecode + ([PushOpcode(width) as Octet] + BigEndian(0, width))
  {
    ZeroBytes(width);
    r := bytecode + [PushOpcode(width) as Octet];
    r := r + seq(width, i => 0);
  }

  method AppendString(bytecode: seq<Octet>, s: seq<Octet>) returns (r: seq<Octet>)
    ensures r == bytecode + ([PUSH32 as Octet] + Padded(s))
  {
    r := bytecode + [PUSH32 as Octet];
    var start := r;
    var i := 0;
    while i < |s| && i < 32
      invariant 0 <= i <= |s| && i <= 32 && r == start + s[..i]
    {
      r := r + [s[i]];
      i := i + 1;
    }
    while i < 32
      invariant Min(|s|, 32) <= i <= 32 && r == start + (s[..Min(|s|, 32)] + seq(i - Min(|s|, 32), j => 0))
    {
      r := r + [0];
      i := i + 1;
    }
  }

  /** The error an item causes on its own. */
  function ItemError(src: Source, item: Item): Option<AssembleError> {
    match item
    case UndefinedItem(_) => Some(InvalidItem)
    case PushString(d) => if d in src.strings then None else Some(UnknownString)
    case PushSubSize(d) => if SubIndex(d) < |src.subs| then None else Some(UnknownSub)
    case PushLibraryAddress(d) => if d in src.libraries then None else Some(UnknownLibrary)
    case Tag(d) => if d == 0 then Some(InvalidTagPosition) else if !IsLocal(d) then Some(ForeignTag) else None
    case _ => None
  }

  /** The items whose operand is not known yet. */
  lemma ReservedChunk(src: Source, plan: Plan, item: Item)
    requires item.PushTag? || item.PushData? || item.PushSub? || item.PushProgramSize? || item.PushLibraryAddress? || item.PushDeployTimeAddress?
    ensures Chunk(src, plan, Unresolved(), item) ==
            [PushOpcode(OperandWidth(src, plan, item)) as Octet] + BigEndian(0, OperandWidth(src, plan, item))
  {
    hide BigEndian, PushOpcode;
  }

  lemma NumberChunk(src: Source, plan: Plan, item: Item)
    requires item.Push? || item.PushSubSize?
    ensures var value := if item.Push? then item.data else SubSize(src, item.data);
            var width := Max(1, BytesRequired(value));
            Chunk(src, plan, Unresolved(), item) == [PushOpcode(width) as Octet] + BigEndian(value, width)
  {
    hide BigEndian, PushOpcode, BytesRequired;
  }

  lemma StringChunk(src: Source, plan: Plan, item: Item)
    requires item.PushString? && item.data in src.strings
    ensures Chunk(src, plan, Unresolved(), item) == [PUSH32 as Octet] + Padded(src.strings[item.data])
  {
    hide BigEndian, FromBytes, Padded, PushOpcode;
    FromBytesRoundTrip(Padded(src.strings[item.data]));
    StringOpcode();
  }

  lemma PlainChunk(src: Source, plan: Plan, item: Item)
    requires item.Operation? || item.Tag?
    ensures Chunk(src, plan, Unresolved(), item) == [(if item.Tag? then JUMPDEST else item.instr) as Octet]
  {
    hide PushOpcode;
    NoOperand();
  }

  method EmitBytes(src: Source, plan: Plan, bytecode: seq<Octet>, item: Item) returns (r: seq<Octet>)
    requires ItemError(src, item).None?
    ensures r == bytecode + Chunk(src, plan, Unresolved(), item)
  {
    hide BigEndian, FromBytes, BytesRequired, Padded, PushOpcode, Chunk, ItemError;
    if item.Operation? || item.Tag? {
      PlainChunk(src, plan, item);
      return bytecode + [(if item.Tag? then JUMPDEST else item.instr) as Octet];
    }
    if item.PushString? {
      KnownString(src, item);
      StringChunk(src, plan, item);
      r := AppendString(bytecode, src.strings[item.data]);
      return;
    }
    if item.Push? || item.PushSubSize? {
      NumberChunk(src, plan, item);
      var value := if item.Push? then item.data else SubSize(src, item.data);
      r := AppendPush(bytecode, Max(1, BytesRequired(value)), value);
      return;
    }
    KnownItem(src, item);
    ReservedChunk(src, plan, item);
    r := AppendReserved(bytecode, OperandWidth(src, plan, item));
  }

  lemma KnownString(src: Source, item: Item)
    requires ItemError(src, item).None? && item.PushString?
    ensures item.data in src.strings
  {
  }

  lemma KnownItem(src: Source, item: Item)
    requires ItemError(src, item).None?
    ensures !item.UndefinedItem?
  {
  }

  lemma NoOperand()
    ensures BigEndian(0, 0) == []
  {
  }

  lemma StringOpcode()
    ensures PushOpcode(32) == PUSH32
  {
  }

  /** Emits one item and records its references and its position. */
  method EmitItem(src: Source, plan: Plan, d: Draft, ghost items: seq<Item>, item: Item) returns (r: Assembled<Draft>)
    requires src.usedTags >= 1 && Drafted(src, plan, items, d)
    requires item.Tag? && IsLocal(item.data) ==> item.data < src.usedTags
    ensures r.Success? ==> Drafted(src, plan, items + [item], r.value)
    ensures r.Success? <==> && ItemError(src, item).None?
                            && (item.Tag? ==> Extent(src, plan, items) < 0xffffffff && !HasTag(items, item.data))
    ensures r.Failure? && r.error == TagTooLarge ==> item.Tag? && Extent(src, plan, items) >= 0xffffffff
    ensures r.Failure? ==> r.error != TagTooLargeForSpace
  {
    hide Code, Chunk, References, TagsPlaced, SplitForeign, Extent;
    var size := |d.bytecode|;
    CodeLength(src, plan, Unresolved(), items);
    CodeSnoc(src, plan, Unresolved(), items, item);
    ReferencesSnoc(src, plan, TagRef, items, item);
    ReferencesSnoc(src, plan, DataRef, items, item);
    ReferencesSnoc(src, plan, SubRef, items, item);
    ReferencesSnoc(src, plan, SizeRef, items, item);
    var error := ItemError(src, item);
    if error.Some? {
      return Failure(error.value);
    }
    if item.Tag? {
      PlacedFacts(src, plan, items, d.tagPositions, item.data);
      if size >= 0xffffffff {
        return Failure(TagTooLarge);
      }
      if d.tagPositions[item.data].Some? {
        return Failure(DuplicateTag);
      }
    } else {
      PlacedFacts(src, plan, items, d.tagPositions, 0);
    }
    var positions := d.tagPositions;
    if item.Tag? {
      positions := positions[item.data := Some(size)];
    } else if positions[0].None? {
      positions := positions[0 := Some(size)];
    }
    PlacedSnoc(src, plan, items, item, d.tagPositions, positions);
    var bytecode := EmitBytes(src, plan, d.bytecode, item);
    r := Success(Draft(bytecode, positions,
                       d.tagRef + NewReference(TagRef, item, size + 1),
                       d.dataRef + NewReference(DataRef, item, size + 1),
                       d.subRef + NewReference(SubRef, item, size + 1),
                       d.sizeRef + NewReference(SizeRef, item, size + 1)));
  }

  lemma PlacedFacts(src: Source, plan: Plan, items: seq<Item>, positions: seq<Option<nat>>, t: nat)
    requires TagsPlaced(src, plan, items, positions) && t < src.usedTags
    ensures |positions| == src.usedTags && (t > 0 ==> (positions[t].Some? <==> HasTag(items, t)))
  {
    hide Extent;
    if t > 0 && HasTag(items, t) {
      var k :| 0 <= k < |items| && IsTag(items[k], t);
      assert PlacedAt(src, plan, items, k, positions);
    }
  }

  /** The items can be emitted: each is well formed and no tag appears twice. */
  ghost predicate Emittable(src: Source, items: seq<Item>) {
    && (forall k | 0 <= k < |items| :: ItemError(src, items[k]).None?)
    && (forall k | 0 <= k < |items| :: FirstOfItsTag(items, k))
  }

  ghost predicate FirstOfItsTag(items: seq<Item>, k: nat)
    requires k < |items|
  {
    items[k].Tag? ==> !HasTag(items[..k], items[k].data)
  }

  lemma EmittableSnoc(src: Source, items: seq<Item>, item: Item)
    requires Emittable(src, items)
    ensures Emittable(src, items + [item]) <==> ItemError(src, item).None? && (item.Tag? ==> !HasTag(items, item.data))
  {
    hide ItemError, HasTag;
    var more := items + [item];
    assert more[|items|] == item && more[..|items|] == items;
    if Emittable(src, more) {
      assert ItemError(src, more[|items|]).None?;
      assert FirstOfItsTag(more, |items|);
    }
    forall k | 0 <= k < |items|
      ensures FirstOfItsTag(more, k) && ItemError(src, more[k]).None?
    {
      assert FirstOfItsTag(items, k);
      assert more[..k] == items[..k] && more[k] == items[k];
    }
  }

  lemma EmittablePrefix(src: Source, items: seq<Item>, i: nat)
    requires i <= |items| && Emittable(src, items)
    ensures Emittable(src, items[..i])
  {
    hide ItemError, HasTag;
    forall k | 0 <= k < i
      ensures FirstOfItsTag(items[..i], k)
    {
      assert FirstOfItsTag(items, k);
      assert items[..i][..k] == items[..k];
    }
  }

  /** Every tag is placed below four gigabytes. */
  predicate PositionsSmall(src: Source, plan: Plan, items: seq<Item>) {
    forall k | 0 <= k < |items| && items[k].Tag? :: SmallAt(src, plan, items, k)
  }

  predicate SmallAt(src: Source, plan: Plan, items: seq<Item>, k: nat)
    requires k < |items|
  {
    Extent(src, plan, items[..k]) < 0xffffffff
  }

  lemma SmallSnoc(src: Source, plan: Plan, items: seq<Item>, item: Item)
    requires PositionsSmall(src, plan, items)
    ensures PositionsSmall(src, plan, items + [item]) <==> (item.Tag? ==> Extent(src, plan, items) < 0xffffffff)
  {
    hide Extent;
    var more := items + [item];
    assert more[|items|] == item && more[..|items|] == items;
    if PositionsSmall(src, plan, more) && item.Tag? {
      assert SmallAt(src, plan, more, |items|);
    }
    forall k | 0 <= k < |items| && more[k].Tag?
      ensures SmallAt(src, plan, more, k)
    {
      assert SmallAt(src, plan, items, k);
      assert more[..k] == items[..k];
    }
  }

  lemma SmallPrefix(src: Source, plan: Plan, items: seq<Item>, i: nat)
    requires i <= |items| && PositionsSmall(src, plan, items)
    ensures PositionsSmall(src, plan, items[..i])
  {
    hide Extent;
    forall k | 0 <= k < i && items[..i][k].Tag?
      ensures SmallAt(src, plan, items[..i], k)
    {
      assert SmallAt(src, plan, items, k);
      assert items[..i][..k] == items[..k];
    }
  }

  method EmitItems(src: Source, plan: Plan) returns (r: Assembled<Draft>)
    requires Declared(src)
    ensures r.Success? ==> Drafted(src, plan, src.items, r.value)
    ensures r.Success? <==> Emittable(src, src.items) && PositionsSmall(src, plan, src.items)
    ensures r.Failure? ==> r.error != TagTooLargeForSpace
  {
    hide Drafted, Emittable, Extent, PositionsSmall;
    var items := src.items;
    var d := Draft([], seq(src.usedTags, i => None), [], [], [], []);
    var i := 0;
    Begin(src, plan, d);
    assert items[..0] == [];
    while i < |items|
      invariant 0 <= i <= |items| && Drafted(src, plan, items[..i], d)
      invariant Emittable(src, items[..i]) && PositionsSmall(src, plan, items[..i])
    {
      assert items[..i + 1] == items[..i] + [items[i]];
      EmittableSnoc(src, items[..i], items[i]);
      SmallSnoc(src, plan, items[..i], items[i]);
      if Emittable(src, items) && PositionsSmall(src, plan, items) {
        EmittablePrefix(src, items, i + 1);
        SmallPrefix(src, plan, items, i + 1);
      }
      var next := EmitItem(src, plan, d, items[..i], items[i]);
      if next.Failure? {
        return Failure(next.error);
      }
      d := next.value;
      i := i + 1;
    }
    assert items[..i] == items;
    r := Success(d);
  }

  lemma ExtentWhole(src: Source, plan: Plan, items: seq<Item>, i: nat)
    requires i <= |items|
    ensures Extent(src, plan, items[..i]) <= Extent(src, plan, items)
  {
    hide Extent;
    assert items[..|items|] == items;
    if i < |items| {
      ExtentPrefix(src, plan, items, i, |items|);
    }
  }

  lemma Begin(src: Source, plan: Plan, d: Draft)
    requires src.usedTags >= 1
    requires d == Draft([], seq(src.usedTags, i => None), [], [], [], [])
    ensures Drafted(src, plan, [], d) && Emittable(src, []) && PositionsSmall(src, plan, [])
  {
    NoTagsPlaced(src, plan);
  }

  // ----- filling in references -----

  /** Writes the value to all references with the given key. */
  method FillReferences(buffer: seq<Octet>, refs: seq<Reference>, width: nat, key: Word, value: nat) returns (r: seq<Octet>)
    requires InRange(refs, width, |buffer|)
    ensures r == FillAll(buffer, refs, width, OneKey(key, value))
  {
    hide BigEndian, Patched;
    r := buffer;
    var j := 0;
    while j < |refs|
      invariant 0 <= j <= |refs| && r == FillAll(buffer, refs[..j], width, OneKey(key, value))
    {
      assert refs[..j + 1][..j] == refs[..j];
      if refs[j].key == key {
        r := ToBigEndian(r, refs[j].position, width, value);
      }
      j := j + 1;
    }
    assert refs[..j] == refs;
  }

  predicate HasKey(refs: seq<Reference>, key: Word) {
    exists j :: 0 <= j < |refs| && refs[j].key == key
  }

  /** The bytes are found in the buffer at this place. */
  predicate Holds(buffer: seq<Octet>, at: nat, bytes: seq<Octet>) {
    at + |bytes| <= |buffer| && buffer[at..at + |bytes|] == bytes
  }

  lemma HoldsMore(buffer: seq<Octet>, at: nat, bytes: seq<Octet>, more: seq<Octet>)
    ensures Holds(buffer, at, bytes) ==> Holds(buffer + more, at, bytes)
    ensures Holds(buffer + bytes, |buffer|, bytes)
  {
    if Holds(buffer, at, bytes) {
      assert (buffer + more)[at..at + |bytes|] == buffer[at..at + |bytes|];
    }
  }

  /** Position p lies behind the code, and the bytes are there. */
  predicate Behind(tail: seq<Octet>, start: nat, p: Option<nat>, bytes: seq<Octet>) {
    p.Some? && p.value >= start && Holds(tail, p.value - start, bytes)
  }

  lemma BehindMore(tail: seq<Octet>, start: nat, p: Option<nat>, bytes: seq<Octet>, more: seq<Octet>)
    requires Behind(tail, start, p, bytes)
    ensures Behind(tail + more, start, p, bytes)
  {
    HoldsMore(tail, p.value - start, bytes, more);
  }

  /** Code and tail: what has been emitted so far. */
  ghost predicate Emitted(src: Source, plan: Plan, res: Resolution, tail: seq<Octet>, bytecode: seq<Octet>) {
    bytecode == Code(src, plan, res, src.items) + tail
  }

  /** Some item refers to this key. */
  predicate Refers(items: seq<Item>, kind: RefKind, key: Word) {
    exists k :: 0 <= k < |items| && KeyOf(kind, items[k]) == Some(key)
  }

  lemma HasKeyIff(src: Source, plan: Plan, kind: RefKind, items: seq<Item>, key: Word)
    ensures HasKey(References(src, plan, kind, items), key) <==> Refers(items, kind, key)
  {
    hide References, KeyOf;
    if HasKey(References(src, plan, kind, items), key) {
      var j :| 0 <= j < |References(src, plan, kind, items)| && References(src, plan, kind, items)[j].key == key;
      ReferenceOwned(src, plan, kind, items, j);
    }
    if Refers(items, kind, key) {
      var k :| 0 <= k < |items| && KeyOf(kind, items[k]) == Some(key);
      ReferenceListed(src, plan, kind, items, k);
    }
  }

  /** The bytes of the first n sub-assemblies, as far as they are referred to. */
  function SubsBefore(src: Source, n: nat): nat
    requires n <= |src.subs| <= SUB_BASE
  {
    if n == 0 then 0
    else SubsBefore(src, n - 1) + if Refers(src.items, SubRef, n - 1) then |src.subs[n - 1].bytecode| else 0
  }

  /** The bytes of the first n data entries, as far as they are referred to. */
  function DataBefore(src: Source, n: nat): nat
    requires n <= |src.data|
  {
    if n == 0 then 0
    else DataBefore(src, n - 1) + if Refers(src.items, DataRef, src.data[n - 1].key) then |src.data[n - 1].bytes| else 0
  }

  /** Where a sub-assembly starts: behind the code, an INVALID and the sub-assemblies before it. */
  function SubStart(src: Source, plan: Plan, i: nat): nat
    requires i <= |src.subs| <= SUB_BASE
  {
    Extent(src, plan, src.items) + 1 + SubsBefore(src, i)
  }

  /** Where a data entry starts: behind all sub-assemblies and the data before it. */
  function DataStart(src: Source, plan: Plan, i: nat): nat
    requires i <= |src.data| && |src.subs| <= SUB_BASE
  {
    SubStart(src, plan, |src.subs|) + DataBefore(src, i)
  }

  /** The size of the whole object. */
  function ObjectSize(src: Source, plan: Plan): nat
    requires |src.subs| <= SUB_BASE
  {
    Extent(src, plan, src.items) + Separator(src) + SubsBefore(src, |src.subs|) + DataBefore(src, |src.data|) + |src.auxiliary|
  }

  /** An INVALID separates the code from what follows it. */
  function Separator(src: Source): nat {
    if src.subs != [] || src.data != [] || src.auxiliary != [] then 1 else 0
  }

  predicate Separated(src: Source, tail: seq<Octet>) {
    Separator(src) == 1 ==> |tail| > 0 && tail[0] == INVALID as Octet
  }

  ghost predicate SubBehind(src: Source, plan: Plan, res: Resolution, tail: seq<Octet>, i: nat)
    requires i < |src.subs| <= SUB_BASE
  {
    && res.subs(i) == Some(SubStart(src, plan, i))
    && Behind(tail, Extent(src, plan, src.items), res.subs(i), src.subs[i].bytecode)
  }

  ghost predicate DatumBehind(src: Source, plan: Plan, res: Resolution, tail: seq<Octet>, i: nat)
    requires i < |src.data| && |src.subs| <= SUB_BASE
  {
    && res.data(src.data[i].key) == Some(DataStart(src, plan, i))
    && Behind(tail, Extent(src, plan, src.items), res.data(src.data[i].key), src.data[i].bytes)
  }

  /** The first n sub-assemblies, as far as they are referred to, have been appended, and nothing else is known. */
  ghost predicate SubsBehind(src: Source, plan: Plan, res: Resolution, tail: seq<Octet>, n: nat)
    requires n <= |src.subs| <= SUB_BASE
  {
    && (forall i | 0 <= i < n && Refers(src.items, SubRef, i) :: SubBehind(src, plan, res, tail, i))
    && (forall key: Word | key >= n :: res.subs(key).None?)
  }

  ghost predicate DataBehind(src: Source, plan: Plan, res: Resolution, tail: seq<Octet>, n: nat)
    requires n <= |src.data| && |src.subs| <= SUB_BASE
  {
    && (forall i | 0 <= i < n && Refers(src.items, DataRef, src.data[i].key) :: DatumBehind(src, plan, res, tail, i))
    && (forall key: Word | res.data(key).Some? :: IsDatum(src, key, n))
  }

  predicate IsDatum(src: Source, key: Word, n: nat)
    requires n <= |src.data|
  {
    exists i :: 0 <= i < n && src.data[i].key == key
  }

  /** One block of bytes: the references to it are filled in, then it is appended. */
  method AppendBlock(src: Source, plan: Plan, kind: RefKind, refs: seq<Reference>, bytecode: seq<Octet>, key: Word, bytes: seq<Octet>,
                     ghost res: Resolution, ghost res': Resolution, ghost tail: seq<Octet>)
    returns (r: seq<Octet>)
    requires !kind.TagRef? && refs == References(src, plan, kind, src.items)
    requires Emitted(src, plan, res, tail, bytecode)
    requires Advances(src, plan, kind, OneKey(key, |bytecode|), res, res')
    ensures Emitted(src, plan, res', tail + bytes, r)
    ensures |bytecode| == Extent(src, plan, src.items) + |tail|
    ensures Behind(tail + bytes, Extent(src, plan, src.items), Some(|bytecode|), bytes)
  {
    hide Advances, Code, References, Extent, FillAll;
    CodeLength(src, plan, res, src.items);
    ReferencesInRange(src, plan, kind, src.items);
    FillCode(src, plan, kind, OneKey(key, |bytecode|), res, res', src.items, tail);
    r := FillReferences(bytecode, refs, plan.dataWidth, key, |bytecode|);
    assert r == Code(src, plan, res', src.items) + tail;
    r := r + bytes;
    assert r == Code(src, plan, res', src.items) + (tail + bytes);
    HoldsMore(tail, 0, bytes, bytes);
  }

  /** Appends the sub-assemblies that are referred to. */
  method AppendSubs(src: Source, plan: Plan, bytecode: seq<Octet>, refs: seq<Reference>, ghost tail: seq<Octet>)
    returns (r: seq<Octet>, ghost res: Resolution, ghost tail': seq<Octet>)
    requires refs == References(src, plan, SubRef, src.items) && |src.subs| <= SUB_BASE
    requires Emitted(src, plan, Unresolved(), tail, bytecode) && (src.subs != [] ==> |tail| == 1)
    ensures Emitted(src, plan, res, tail', r) && SubsBehind(src, plan, res, tail', |src.subs|)
    ensures res.tags == Unresolved().tags && res.data == Unresolved().data && |tail'| == |tail| + SubsBefore(src, |src.subs|)
    ensures tail <= tail'
  {
    hide Emitted, Behind, References, Advances, Extent, Refers, HasKey;
    r, res, tail' := bytecode, Unresolved(), tail;
    var i := 0;
    while i < |src.subs|
      invariant 0 <= i <= |src.subs|
      invariant Emitted(src, plan, res, tail', r) && SubsBehind(src, plan, res, tail', i)
      invariant res.tags == Unresolved().tags && res.data == Unresolved().data && |tail'| == |tail| + SubsBefore(src, i)
      invariant tail <= tail'
    {
      var bytes := src.subs[i].bytecode;
      HasKeyIff(src, plan, SubRef, src.items, i);
      if HasKey(refs, i) {
        ghost var known := res.(subs := Updated(res.subs, i, |r|));
        AdvanceSubs(src, plan, res, i, |r|);
        r := AppendBlock(src, plan, SubRef, refs, r, i, bytes, res, known, tail');
        NextSub(src, plan, res, known, tail', i);
        res, tail' := known, tail' + bytes;
      }
      i := i + 1;
    }
  }

  lemma NextSub(src: Source, plan: Plan, res: Resolution, known: Resolution, tail: seq<Octet>, i: nat)
    requires i < |src.subs| <= SUB_BASE && SubsBehind(src, plan, res, tail, i)
    requires known.subs == Updated(res.subs, i, SubStart(src, plan, i))
    requires Behind(tail + src.subs[i].bytecode, Extent(src, plan, src.items), Some(SubStart(src, plan, i)), src.subs[i].bytecode)
    ensures SubsBehind(src, plan, known, tail + src.subs[i].bytecode, i + 1)
  {
    hide Behind, Extent, Refers, SubStart;
    forall j | 0 <= j < i && Refers(src.items, SubRef, j)
      ensures SubBehind(src, plan, known, tail + src.subs[i].bytecode, j)
    {
      assert SubBehind(src, plan, res, tail, j);
      BehindMore(tail, Extent(src, plan, src.items), res.subs(j), src.subs[j].bytecode, src.subs[i].bytecode);
    }
  }

  /** Appends the data that is referred to. */
  method AppendData(src: Source, plan: Plan, bytecode: seq<Octet>, refs: seq<Reference>, ghost start: Resolution, ghost tail: seq<Octet>)
    returns (r: seq<Octet>, ghost res: Resolution, ghost tail': seq<Octet>)
    requires Declared(src) && refs == References(src, plan, DataRef, src.items)
    requires Emitted(src, plan, start, tail, bytecode) && SubsBehind(src, plan, start, tail, |src.subs|)
    requires start.data == Unresolved().data && (src.data != [] ==> |tail| == 1 + SubsBefore(src, |src.subs|))
    ensures Emitted(src, plan, res, tail', r) && SubsBehind(src, plan, res, tail', |src.subs|)
    ensures DataBehind(src, plan, res, tail', |src.data|)
    ensures res.tags == start.tags && |tail'| == |tail| + DataBefore(src, |src.data|) && tail <= tail'
  {
    hide Emitted, Behind, References, Advances, Extent, SubsBehind, Refers, HasKey, SubsBefore;
    r, res, tail' := bytecode, start, tail;
    var i := 0;
    while i < |src.data|
      invariant 0 <= i <= |src.data|
      invariant Emitted(src, plan, res, tail', r) && SubsBehind(src, plan, res, tail', |src.subs|) && DataBehind(src, plan, res, tail', i)
      invariant res.tags == start.tags && |tail'| == |tail| + DataBefore(src, i) && tail <= tail'
    {
      var key, bytes := src.data[i].key, src.data[i].bytes;
      HasKeyIff(src, plan, DataRef, src.items, key);
      DatumNext(src, plan, res, tail', i);
      if HasKey(refs, key) {
        ghost var known := res.(data := Updated(res.data, key, |r|));
        AdvanceData(src, plan, res, key, |r|);
        r := AppendBlock(src, plan, DataRef, refs, r, key, bytes, res, known, tail');
        NextDatum(src, plan, res, known, tail', i);
        SubsMore(src, plan, res, known, tail', bytes);
        res, tail' := known, tail' + bytes;
      }
      i := i + 1;
    }
  }

  lemma DatumNext(src: Source, plan: Plan, res: Resolution, tail: seq<Octet>, i: nat)
    requires Declared(src) && i < |src.data| && DataBehind(src, plan, res, tail, i)
    ensures !Refers(src.items, DataRef, src.data[i].key) ==> DataBehind(src, plan, res, tail, i + 1)
  {
    hide Refers, DatumBehind;
    forall key: Word | res.data(key).Some?
      ensures IsDatum(src, key, i + 1)
    {
      assert IsDatum(src, key, i);
    }
  }

  lemma NextDatum(src: Source, plan: Plan, res: Resolution, known: Resolution, tail: seq<Octet>, i: nat)
    requires Declared(src) && i < |src.data| && DataBehind(src, plan, res, tail, i)
    requires known.data == Updated(res.data, src.data[i].key, DataStart(src, plan, i))
    requires Behind(tail + src.data[i].bytes, Extent(src, plan, src.items), Some(DataStart(src, plan, i)), src.data[i].bytes)
    ensures DataBehind(src, plan, known, tail + src.data[i].bytes, i + 1)
  {
    hide Behind, Extent, Refers, DataStart;
    forall j | 0 <= j < i && Refers(src.items, DataRef, src.data[j].key)
      ensures DatumBehind(src, plan, known, tail + src.data[i].bytes, j)
    {
      assert DatumBehind(src, plan, res, tail, j);
      BehindMore(tail, Extent(src, plan, src.items), res.data(src.data[j].key), src.data[j].bytes, src.data[i].bytes);
    }
    forall key: Word | known.data(key).Some?
      ensures IsDatum(src, key, i + 1)
    {
      assert key != src.data[i].key ==> IsDatum(src, key, i);
    }
  }

  lemma SubsMore(src: Source, plan: Plan, res: Resolution, res': Resolution, tail: seq<Octet>, more: seq<Octet>)
    requires |src.subs| <= SUB_BASE && SubsBehind(src, plan, res, tail, |src.subs|) && res'.subs == res.subs
    ensures SubsBehind(src, plan, res', tail + more, |src.subs|)
  {
    hide Behind, Extent, Refers, SubStart;
    forall i | 0 <= i < |src.subs| && Refers(src.items, SubRef, i)
      ensures SubBehind(src, plan, res', tail + more, i)
    {
      assert SubBehind(src, plan, res, tail, i);
      BehindMore(tail, Extent(src, plan, src.items), res.subs(i), src.subs[i].bytecode, more);
    }
  }

  lemma DataMore(src: Source, plan: Plan, res: Resolution, res': Resolution, tail: seq<Octet>, more: seq<Octet>)
    requires |src.subs| <= SUB_BASE && DataBehind(src, plan, res, tail, |src.data|) && res'.data == res.data
    ensures DataBehind(src, plan, res', tail + more, |src.data|)
  {
    hide Behind, Extent, Refers, DataStart, IsDatum;
    forall i | 0 <= i < |src.data| && Refers(src.items, DataRef, src.data[i].key)
      ensures DatumBehind(src, plan, res', tail + more, i)
    {
      assert DatumBehind(src, plan, res, tail, i);
      BehindMore(tail, Extent(src, plan, src.items), res.data(src.data[i].key), src.data[i].bytes, more);
    }
  }

  // ----- tags -----

  /** The position a pushed tag stands for. */
  function Lookup(src: Source, positions: seq<Option<nat>>, tagWidth: nat, d: Word): Assembled<nat> {
    var (sub, tag) := SplitForeign(d);
    if sub.Some? && sub.value >= |src.subs| then Failure(InvalidSubId)
    else
      var table := if sub.None? then positions else src.subs[sub.value].tagPositions;
      if tag >= |table| then Failure(NoSuchTag)
      else if table[tag].None? then Failure(TagWithoutPosition)
      else if BytesRequired(table[tag].value) > tagWidth then Failure(TagTooLargeForSpace)
      else Success(table[tag].value)
  }

  function TagValue(src: Source, positions: seq<Option<nat>>, tagWidth: nat): Word -> Option<nat> {
    d => match Lookup(src, positions, tagWidth, d) case Success(p) => Some(p) case Failure(_) => None
  }

  /** Writes the positions of the pushed tags into the code. */
  method ResolveTags(src: Source, plan: Plan, bytecode: seq<Octet>, refs: seq<Reference>, positions: seq<Option<nat>>)
    returns (r: Assembled<seq<Octet>>)
    requires InRange(refs, plan.tagWidth, |bytecode|)
    ensures r.Success? <==> forall j | 0 <= j < |refs| :: Lookup(src, positions, plan.tagWidth, refs[j].key).Success?
    ensures r.Success? ==> r.value == FillAll(bytecode, refs, plan.tagWidth, TagValue(src, positions, plan.tagWidth))
    ensures r.Failure? ==> exists j :: 0 <= j < |refs| && Lookup(src, positions, plan.tagWidth, refs[j].key) == Failure(r.error)
  {
    hide BigEndian, Patched, Lookup;
    var code := bytecode;
    var j := 0;
    while j < |refs|
      invariant 0 <= j <= |refs| && code == FillAll(bytecode, refs[..j], plan.tagWidth, TagValue(src, positions, plan.tagWidth))
      invariant forall i | 0 <= i < j :: Lookup(src, positions, plan.tagWidth, refs[i].key).Success?
    {
      assert refs[..j + 1][..j] == refs[..j];
      var p := Lookup(src, positions, plan.tagWidth, refs[j].key);
      if p.Failure? {
        return Failure(p.error);
      }
      code := ToBigEndian(code, refs[j].position, plan.tagWidth, p.value);
      j := j + 1;
    }
    assert refs[..j] == refs;
    r := Success(code);
  }
}
