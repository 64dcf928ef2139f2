/** The layout of assembled code: what every item is emitted as, and how references that are only
    known later are filled in (libevmasm/Assembly.cpp:530-682). */
module Layouts {
  import opened Wrappers
  import opened Words
  import opened Instructions
  import opened Items
  import opened Machine
  import opened Encoding

  /** An assembled sub-assembly. */
  datatype SubObject = SubObject(bytecode: seq<Octet>, tagPositions: seq<Option<nat>>)

  datatype DataEntry = DataEntry(key: Word, bytes: seq<Octet>)

  /** Everything the assembler works on. The data entries are in the order of their keys. */
  datatype Source = Source(
    items: seq<Item>,
    usedTags: nat,
    data: seq<DataEntry>,
    subs: seq<SubObject>,
    strings: map<Word, seq<Octet>>,
    libraries: set<Word>,
    auxiliary: seq<Octet>)

  /** The bytes reserved for tags and for references to data. */
  datatype Plan = Plan(tagWidth: nat, dataWidth: nat)

  /** The references that are already known. */
  datatype Resolution = Resolution(
    tags: Word -> Option<nat>,
    data: Word -> Option<nat>,
    subs: Word -> Option<nat>,
    size: Option<nat>)

  function Unresolved(): Resolution {
    Resolution(d => None, d => None, d => None, None)
  }

  function Known(v: Option<nat>): nat {
    if v.Some? then v.value else 0
  }

  function SubIndex(d: Word): Word {
    d % SUB_BASE
  }

  function SubSize(src: Source, d: Word): nat {
    var i := SubIndex(d);
    if i < |src.subs| then |src.subs[i].bytecode| else 0
  }

  /** The first 32 characters, filled up with zeros. */
  function Padded(s: seq<Octet>): (r: seq<Octet>)
    ensures |r| == 32
  {
    if |s| < 32 then s + seq(32 - |s|, i => 0) else s[..32]
  }

  function StringOf(src: Source, d: Word): seq<Octet> {
    if d in src.strings then src.strings[d] else []
  }

  function OperandWidth(src: Source, plan: Plan, item: Item): nat {
    match item
    case UndefinedItem(_) => 0
    case Operation(_) => 0
    case Tag(_) => 0
    case PushString(_) => 32
    case Push(d) => Max(1, BytesRequired(d))
    case PushTag(_) => plan.tagWidth
    case PushData(_) => plan.dataWidth
    case PushSub(_) => plan.dataWidth
    case PushProgramSize(_) => plan.dataWidth
    case PushSubSize(d) => Max(1, BytesRequired(SubSize(src, d)))
    case PushLibraryAddress(_) => 20
    case PushDeployTimeAddress(_) => 20
  }

  /** The number an item pushes. Library and deployment addresses are filled in by the linker. */
  function OperandValue(src: Source, res: Resolution, item: Item): nat {
    match item
    case UndefinedItem(_) => 0
    case Operation(_) => 0
    case Tag(_) => 0
    case PushString(d) => FromBytes(Padded(StringOf(src, d)))
    case Push(d) => d
    case PushTag(d) => Known(res.tags(d))
    case PushData(d) => Known(res.data(d))
    case PushSub(d) => Known(res.subs(SubIndex(d)))
    case PushProgramSize(_) => Known(res.size)
    case PushSubSize(d) => SubSize(src, d)
    case PushLibraryAddress(_) => 0
    case PushDeployTimeAddress(_) => 0
  }

  function PushOpcode(width: nat): Opcode {
    (PUSH1 - 1 + width) % 256
  }

  function Head(src: Source, plan: Plan, item: Item): Opcode {
    match item
    case UndefinedItem(_) => INVALID
    case Operation(op) => op
    case Tag(_) => JUMPDEST
    case _ => PushOpcode(OperandWidth(src, plan, item))
  }

  function Operand(src: Source, plan: Plan, res: Resolution, item: Item): (b: seq<Octet>)
    ensures |b| == OperandWidth(src, plan, item)
  {
    BigEndian(OperandValue(src, res, item), OperandWidth(src, plan, item))
  }

  function Chunk(src: Source, plan: Plan, res: Resolution, item: Item): (b: seq<Octet>)
    ensures |b| == 1 + OperandWidth(src, plan, item)
  {
    [Head(src, plan, item) as Octet] + Operand(src, plan, res, item)
  }

  /** The code of a list of items. */
  function Code(src: Source, plan: Plan, res: Resolution, items: seq<Item>): seq<Octet> {
    if items == [] then []
    else Code(src, plan, res, items[..|items| - 1]) + Chunk(src, plan, res, items[|items| - 1])
  }

  /** The position behind the code of the items. */
  function Extent(src: Source, plan: Plan, items: seq<Item>): nat {
    if items == [] then 0
    else Extent(src, plan, items[..|items| - 1]) + 1 + OperandWidth(src, plan, items[|items| - 1])
  }

  lemma {:induction false} CodeLength(src: Source, plan: Plan, res: Resolution, items: seq<Item>)
    ensures |Code(src, plan, res, items)| == Extent(src, plan, items)
  {
    hide Chunk, OperandWidth;
    if items != [] {
      CodeLength(src, plan, res, items[..|items| - 1]);
    }
  }

  lemma CodeSnoc(src: Source, plan: Plan, res: Resolution, items: seq<Item>, item: Item)
    ensures Code(src, plan, res, items + [item]) == Code(src, plan, res, items) + Chunk(src, plan, res, item)
    ensures Extent(src, plan, items + [item]) == Extent(src, plan, items) + 1 + OperandWidth(src, plan, item)
  {
    hide Chunk, OperandWidth;
    assert (items + [item])[..|items|] == items;
  }

  lemma {:induction false} ExtentPrefix(src: Source, plan: Plan, items: seq<Item>, j: nat, k: nat)
    requires j < k <= |items|
    ensures Extent(src, plan, items[..j]) + 1 <= Extent(src, plan, items[..k])
  {
    hide OperandWidth;
    assert items[..k][..k - 1] == items[..k - 1];
    if j < k - 1 {
      ExtentPrefix(src, plan, items, j, k - 1);
    }
  }

  // ----- references -----

  datatype RefKind = TagRef | DataRef | SubRef | SizeRef

  datatype Reference = Reference(key: Word, position: nat)

  function KeyOf(kind: RefKind, item: Item): Option<Word> {
    match kind
    case TagRef => if item.PushTag? then Some(item.data) else None
    case DataRef => if item.PushData? then Some(item.data) else None
    case SubRef => if item.PushSub? then Some(SubIndex(item.data)) else None
    case SizeRef => if item.PushProgramSize? then Some(0) else None
  }

  function KindWidth(plan: Plan, kind: RefKind): nat {
    if kind.TagRef? then plan.tagWidth else plan.dataWidth
  }

  /** The places that have to be filled in later, in the order of the code. */
  function References(src: Source, plan: Plan, kind: RefKind, items: seq<Item>): seq<Reference> {
    if items == [] then []
    else
      var front := items[..|items| - 1];
      References(src, plan, kind, front) + NewReference(kind, items[|items| - 1], Extent(src, plan, front) + 1)
  }

  function NewReference(kind: RefKind, item: Item, position: nat): seq<Reference> {
    var key := KeyOf(kind, item);
    if key.Some? then [Reference(key.value, position)] else []
  }

  lemma ReferencesSnoc(src: Source, plan: Plan, kind: RefKind, items: seq<Item>, item: Item)
    ensures References(src, plan, kind, items + [item]) ==
            References(src, plan, kind, items) + NewReference(kind, item, Extent(src, plan, items) + 1)
  {
    assert (items + [item])[..|items|] == items;
  }

  predicate InRange(refs: seq<Reference>, width: nat, size: nat) {
    forall j | 0 <= j < |refs| :: refs[j].position + width <= size
  }

  lemma {:induction false} ReferencesInRange(src: Source, plan: Plan, kind: RefKind, items: seq<Item>)
    ensures InRange(References(src, plan, kind, items), KindWidth(plan, kind), Extent(src, plan, items))
  {
    hide OperandWidth;
    if items != [] {
      var last := items[|items| - 1];
      ReferencesInRange(src, plan, kind, items[..|items| - 1]);
      if KeyOf(kind, last).Some? {
        KeyWidth(src, plan, kind, last);
      }
    }
  }

  lemma KeyWidth(src: Source, plan: Plan, kind: RefKind, item: Item)
    requires KeyOf(kind, item).Some?
    ensures OperandWidth(src, plan, item) == KindWidth(plan, kind)
  {
  }

  lemma {:induction false} ReferenceListed(src: Source, plan: Plan, kind: RefKind, items: seq<Item>, k: nat)
    requires k < |items| && KeyOf(kind, items[k]).Some?
    ensures exists j :: 0 <= j < |References(src, plan, kind, items)| && References(src, plan, kind, items)[j].key == KeyOf(kind, items[k]).value
  {
    hide KeyOf;
    var front := items[..|items| - 1];
    var refs := References(src, plan, kind, items);
    if k < |front| {
      ReferenceListed(src, plan, kind, front, k);
      var j :| 0 <= j < |References(src, plan, kind, front)| && References(src, plan, kind, front)[j].key == KeyOf(kind, items[k]).value;
      assert refs[j] == References(src, plan, kind, front)[j];
    } else {
      assert refs[|refs| - 1].key == KeyOf(kind, items[k]).value;
    }
  }

  lemma {:induction false} ReferenceOwned(src: Source, plan: Plan, kind: RefKind, items: seq<Item>, j: nat)
    requires j < |References(src, plan, kind, items)|
    ensures exists k :: 0 <= k < |items| && KeyOf(kind, items[k]) == Some(References(src, plan, kind, items)[j].key)
  {
    hide KeyOf;
    var front := items[..|items| - 1];
    if j < |References(src, plan, kind, front)| {
      ReferenceOwned(src, plan, kind, front, j);
      var k :| 0 <= k < |front| && KeyOf(kind, front[k]) == Some(References(src, plan, kind, front)[j].key);
      assert items[k] == front[k];
    } else {
      assert KeyOf(kind, items[|items| - 1]).Some?;
    }
  }

  /** Fills in all references whose value is given. */
  function FillAll(buffer: seq<Octet>, refs: seq<Reference>, width: nat, value: Word -> Option<nat>): (r: seq<Octet>)
    ensures |r| == |buffer|
  {
    if refs == [] then buffer
    else
      var last := refs[|refs| - 1];
      var b := FillAll(buffer, refs[..|refs| - 1], width, value);
      if value(last.key).Some? && last.position + width <= |b| then
        Patched(b, last.position, BigEndian(value(last.key).value, width))
      else b
  }

  /** The value is known for exactly one key. */
  function OneKey(key: Word, v: nat): Word -> Option<nat> {
    k => if k == key then Some(v) else None
  }

  /** How filling in references of one kind changes what is known. */
  ghost predicate Advances(src: Source, plan: Plan, kind: RefKind, value: Word -> Option<nat>, res: Resolution, res': Resolution) {
    forall item :: Chunk(src, plan, res', item) == FilledChunk(src, plan, kind, value, res, item)
  }

  function FilledChunk(src: Source, plan: Plan, kind: RefKind, value: Word -> Option<nat>, res: Resolution, item: Item): seq<Octet> {
    var key := KeyOf(kind, item);
    if key.Some? && value(key.value).Some? then
      [Head(src, plan, item) as Octet] + BigEndian(value(key.value).value, KindWidth(plan, kind))
    else Chunk(src, plan, res, item)
  }

  lemma PatchBehindHead(front: seq<Octet>, head: Octet, b: seq<Octet>, post: seq<Octet>, b': seq<Octet>)
    requires |b| == |b'|
    ensures |front| + 1 + |b'| <= |front + ([head] + b) + post|
    ensures Patched(front + ([head] + b) + post, |front| + 1, b') == front + ([head] + b') + post
  {
  }

  /** Filling in the references of the code of some items is the code with more known references. */
  lemma {:induction false} FillCode(src: Source, plan: Plan, kind: RefKind, value: Word -> Option<nat>, res: Resolution, res': Resolution, items: seq<Item>, post: seq<Octet>)
    requires Advances(src, plan, kind, value, res, res')
    ensures FillAll(Code(src, plan, res, items) + post, References(src, plan, kind, items), KindWidth(plan, kind), value) ==
            Code(src, plan, res', items) + post
  {
    hide Head, OperandWidth, OperandValue, KeyOf, KindWidth, BigEndian, Patched, Extent, FillAll, Chunk, FilledChunk, References, Code;
    var refs, width := References(src, plan, kind, items), KindWidth(plan, kind);
    if items == [] {
      FillNothing(Code(src, plan, res, items) + post, width, value);
      EmptyCode(src, plan, kind, res);
      EmptyCode(src, plan, kind, res');
    } else {
      var front, last := items[..|items| - 1], items[|items| - 1];
      assert items == front + [last];
      CodeSnoc(src, plan, res, front, last);
      CodeSnoc(src, plan, res', front, last);
      ReferencesSnoc(src, plan, kind, front, last);
      var c, f, f' := Chunk(src, plan, res, last), Code(src, plan, res, front), Code(src, plan, res', front);
      FillCode(src, plan, kind, value, res, res', front, c + post);
      assert f + c + post == f + (c + post) && f' + c + post == f' + (c + post);
      assert Chunk(src, plan, res', last) == FilledChunk(src, plan, kind, value, res, last);
      CodeLength(src, plan, res', front);
      FillChunk(src, plan, kind, value, res, last, front, f', post);
      FillFurther(f + c + post, References(src, plan, kind, front), NewReference(kind, last, Extent(src, plan, front) + 1), width, value);
    }
  }

  lemma EmptyCode(src: Source, plan: Plan, kind: RefKind, res: Resolution)
    ensures Code(src, plan, res, []) == [] && References(src, plan, kind, []) == []
  {
  }

  lemma FillNothing(buffer: seq<Octet>, width: nat, value: Word -> Option<nat>)
    ensures FillAll(buffer, [], width, value) == buffer
  {
  }

  lemma FillFurther(buffer: seq<Octet>, refs: seq<Reference>, more: seq<Reference>, width: nat, value: Word -> Option<nat>)
    requires |more| <= 1
    ensures FillAll(buffer, refs + more, width, value) == FillAll(FillAll(buffer, refs, width, value), more, width, value)
  {
    if more == [] {
      assert refs + more == refs;
    } else {
      var all := refs + more;
      assert all[..|all| - 1] == refs && all[|all| - 1] == more[0] && more[..0] == [];
    }
  }

  lemma FillChunk(src: Source, plan: Plan, kind: RefKind, value: Word -> Option<nat>, res: Resolution, item: Item, front: seq<Item>, f: seq<Octet>, post: seq<Octet>)
    requires |f| == Extent(src, plan, front)
    ensures FillAll(f + Chunk(src, plan, res, item) + post, NewReference(kind, item, Extent(src, plan, front) + 1), KindWidth(plan, kind), value) ==
            f + FilledChunk(src, plan, kind, value, res, item) + post
  {
    hide Head, OperandWidth, OperandValue, KeyOf, KindWidth, BigEndian, Patched, Extent;
    var key := KeyOf(kind, item);
    if key.Some? {
      KeyWidth(src, plan, kind, item);
      if value(key.value).Some? {
        PatchBehindHead(f, Head(src, plan, item) as Octet, Operand(src, plan, res, item), post, BigEndian(value(key.value).value, KindWidth(plan, kind)));
      }
    }
  }

  lemma AdvanceTags(src: Source, plan: Plan, res: Resolution, value: Word -> Option<nat>)
    requires forall d :: res.tags(d).None?
    ensures Advances(src, plan, TagRef, value, res, res.(tags := value))
  {
    hide BigEndian, Head;
  }

  lemma AdvanceData(src: Source, plan: Plan, res: Resolution, key: Word, v: nat)
    ensures Advances(src, plan, DataRef, OneKey(key, v), res, res.(data := Updated(res.data, key, v)))
  {
    hide BigEndian, Head;
    var res' := res.(data := Updated(res.data, key, v));
    forall item
      ensures Chunk(src, plan, res', item) == FilledChunk(src, plan, DataRef, OneKey(key, v), res, item)
    {
      if item.PushData? {
        assert res'.data(item.data) == if item.data == key then Some(v) else res.data(item.data);
      } else {
        assert OperandValue(src, res', item) == OperandValue(src, res, item);
      }
    }
  }

  lemma AdvanceSubs(src: Source, plan: Plan, res: Resolution, key: Word, v: nat)
    ensures Advances(src, plan, SubRef, OneKey(key, v), res, res.(subs := Updated(res.subs, key, v)))
  {
    hide BigEndian, Head;
  }

  lemma AdvanceSize(src: Source, plan: Plan, res: Resolution, v: nat)
    ensures Advances(src, plan, SizeRef, OneKey(0, v), res, res.(size := Some(v)))
  {
    hide BigEndian, Head;
  }

  function Updated(f: Word -> Option<nat>, key: Word, v: nat): Word -> Option<nat> {
    k => if k == key then Some(v) else f(k)
  }
}
