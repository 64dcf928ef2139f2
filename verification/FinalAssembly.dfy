/** The whole assembler and what its result promises (libevmasm/Assembly.cpp:505-682). */
module FinalAssembly {
  import opened Wrappers
  import opened Words
  import opened Instructions
  import opened Items
  import opened Machine
  import opened Encoding
  import opened Layouts
  import opened Widths
  import opened Assembling
  import opened AssembledCode

  // ----- the reserved space is enough -----

  lemma {:induction false} CodeBytesSnoc(items: seq<Item>, item: Item, t: nat)
    ensures CodeBytes(items + [item], t) == CodeBytes(items, t) + ItemBytes(item, t)
  {
    hide ItemBytes;
    if items == [] {
      assert items + [item] == [item];
      assert [item][1..] == [];
    } else {
      assert (items + [item])[0] == items[0] && (items + [item])[1..] == items[1..] + [item];
      CodeBytesSnoc(items[1..], item, t);
    }
  }

  /** The emitted item is not longer than the estimate. */
  predicate WithinEstimate(src: Source, plan: Plan, item: Item, t: nat) {
    1 + OperandWidth(src, plan, item) <= ItemBytes(item, t)
  }

  lemma ItemWithin(src: Source, item: Item)
    requires Fits(src) && RoomForData(src) && item in src.items && !item.UndefinedItem?
    ensures WithinEstimate(src, PlanOf(src), item, TagSizeOf(src))
  {
    hide BytesRequired, PlanOf, TagSizeOf, Fits;
    PlanFacts(src);
    if item.PushSubSize? {
      SubSizeSmall(src, item.data);
    }
  }

  lemma SubSizeSmall(src: Source, d: Word)
    requires Fits(src)
    ensures SubSize(src, d) < U32 && 1 <= Max(1, BytesRequired(SubSize(src, d))) <= 4
  {
    hide BytesRequired, Estimate, LargestTag;
    var i := SubIndex(d);
    if i < |src.subs| {
      SubBytesAt(src.subs, i);
    }
    SmallWidth(SubSize(src, d));
  }

  lemma {:induction false} ExtentWithin(src: Source, plan: Plan, items: seq<Item>, t: nat)
    requires forall item | item in items :: WithinEstimate(src, plan, item, t)
    ensures Extent(src, plan, items) <= CodeBytes(items, t)
  {
    hide ItemBytes, OperandWidth;
    if items != [] {
      var front, last := items[..|items| - 1], items[|items| - 1];
      assert items == front + [last];
      assert forall item | item in front :: item in items;
      ExtentWithin(src, plan, front, t);
      CodeBytesSnoc(front, last, t);
      assert WithinEstimate(src, plan, last, t);
    }
  }

  /** The code is never longer than the estimate its address width is based on. */
  lemma CodeWithinEstimate(src: Source)
    requires Fits(src) && RoomForData(src) && forall item | item in src.items :: !item.UndefinedItem?
    ensures Extent(src, PlanOf(src), src.items) < Estimate(src, TagSizeOf(src)) < U32
  {
    hide WithinEstimate, PlanOf, TagSizeOf, Extent, RoomForData, CodeBytes, BytesRequired, DataBytes, SubBytes, LargestTag;
    forall item | item in src.items
      ensures WithinEstimate(src, PlanOf(src), item, TagSizeOf(src))
    {
      ItemWithin(src, item);
    }
    ExtentWithin(src, PlanOf(src), src.items, TagSizeOf(src));
    PlanFacts(src);
    TagSizeBound(src);
  }

  lemma TagSizeBound(src: Source)
    requires Fits(src)
    ensures Estimate(src, TagSizeOf(src)) + 1 + |src.auxiliary| + SubBytes(src.subs) < U32
  {
    hide BytesRequired, SubBytes, CodeBytes;
    CodeBytesMonotone(src.items, TagSizeOf(src), Max(4, LargestTag(src.subs, 1)));
  }

  lemma {:induction false} FirstPlainBound(src: Source, plan: Plan, items: seq<Item>)
    ensures FirstPlain(src, plan, items).Some? ==> FirstPlain(src, plan, items).value <= Extent(src, plan, items)
    ensures FirstPlain(src, plan, items).Some? <==> exists k :: 0 <= k < |items| && !items[k].Tag?
  {
    hide OperandWidth;
    if items != [] {
      var front := items[..|items| - 1];
      FirstPlainBound(src, plan, front);
      if k :| 0 <= k < |front| && !front[k].Tag? {
        assert !items[k].Tag?;
      }
    }
  }

  lemma {:induction false} CodeBytesAt(items: seq<Item>, k: nat, t: nat)
    requires k < |items|
    ensures CodeBytes(items, t) >= ItemBytes(items[k], t)
  {
    hide ItemBytes;
    if k > 0 {
      CodeBytesAt(items[1..], k - 1, t);
    }
  }

  lemma WidthIff(n: nat, width: nat)
    ensures BytesRequired(n) <= width <==> n < Pow256(width)
  {
    var r := BytesRequired(n);
    if r <= width {
      Pow256Monotone(r, width);
    } else {
      Pow256Monotone(width, r - 1);
    }
  }

  /** Where there is room for data, every position a pushed tag can stand for fits the reserved width. */
  lemma RoomForTags(src: Source, k: nat)
    requires Fits(src) && RoomForData(src) && forall item | item in src.items :: !item.UndefinedItem?
    requires k < |src.items| && src.items[k].PushTag?
    ensures TargetFits(src, PlanOf(src), src.items[k].data)
  {
    hide PlanOf, TagSizeOf, Extent, RoomForData, CodeBytes, BytesRequired, Fits, LargestTag, FirstPlain, Pow256;
    var plan, t := PlanOf(src), TagSizeOf(src);
    var (sub, tag) := SplitForeign(src.items[k].data);
    CodeWithinEstimate(src);
    PlanFacts(src);
    if sub.Some? {
      if sub.value < |src.subs| && tag < |src.subs[sub.value].tagPositions| && src.subs[sub.value].tagPositions[tag].Some? {
        LargestTagBounds(src.subs, 1);
        CodeBytesAt(src.items, k, t);
        Below(src.subs[sub.value].tagPositions[tag].value, Estimate(src, t));
      }
    } else {
      FirstPlainBound(src, plan, src.items);
      if FirstPlain(src, plan, src.items).Some? {
        Below(FirstPlain(src, plan, src.items).value, Estimate(src, t));
      }
      forall i | 0 <= i < |src.items| && IsTag(src.items[i], tag)
        ensures FitsAt(src, plan, i)
      {
        ExtentWhole(src, plan, src.items, i);
        Below(Extent(src, plan, src.items[..i]), Estimate(src, t));
      }
    }
  }

  lemma Below(p: nat, n: nat)
    requires p <= n
    ensures p < Pow256(BytesRequired(n))
  {
    BytesRequiredMonotone(p, n);
    WidthIff(p, BytesRequired(n));
  }

  /** The check "Tag too large for reserved space" never fires where there is room for data. */
  lemma TagNeverTooLarge(src: Source, positions: seq<Option<nat>>, k: nat)
    requires Fits(src) && RoomForData(src) && forall item | item in src.items :: !item.UndefinedItem?
    requires TagsPlaced(src, PlanOf(src), src.items, positions)
    requires k < |src.items| && src.items[k].PushTag?
    ensures Lookup(src, positions, PlanOf(src).tagWidth, src.items[k].data) != Failure(TagTooLargeForSpace)
  {
    hide PlanOf, RoomForData, TagsPlaced, Fits, TargetFits, Lookup;
    RoomForTags(src, k);
    LookupTarget(src, PlanOf(src), positions, k);
  }

  /** Under four gigabytes no tag lies beyond them, whatever the estimate. */
  lemma FitsSmall(src: Source)
    requires Fits(src) && forall item | item in src.items :: !item.UndefinedItem?
    ensures PositionsSmall(src, PlanOf(src), src.items)
  {
    hide PlanOf, Extent, CodeBytes, WithinEstimate, LargestTag, SubBytes, DataBytes;
    var plan, t := PlanOf(src), Max(4, LargestTag(src.subs, 1));
    forall item | item in src.items
      ensures WithinEstimate(src, plan, item, t)
    {
      ItemWithinFour(src, item, t);
    }
    ExtentWithin(src, plan, src.items, t);
    assert src.items[..|src.items|] == src.items;
    forall k | 0 <= k < |src.items| && src.items[k].Tag?
      ensures SmallAt(src, plan, src.items, k)
    {
      ExtentPrefix(src, plan, src.items, k, |src.items|);
    }
  }

  lemma ItemWithinFour(src: Source, item: Item, t: nat)
    requires Fits(src) && t >= 4 && !item.UndefinedItem?
    ensures WithinEstimate(src, PlanOf(src), item, t)
  {
    hide BytesRequired, PlanOf, TagSizeOf, Fits;
    PlanFacts(src);
    if item.PushSubSize? {
      SubSizeSmall(src, item.data);
    }
  }

  // ----- the assembler -----

  /** Everything about the result of the assembler. `tail` is what follows the code. */
  ghost predicate Laid(src: Source, plan: Plan, res: Resolution, tail: seq<Octet>, o: Object)
    requires |src.subs| <= SUB_BASE
  {
    && Emitted(src, plan, res, tail, o.bytecode)
    && TagsPlaced(src, plan, src.items, o.tagPositions) && Emittable(src, src.items)
    && SubsBehind(src, plan, res, tail, |src.subs|) && DataBehind(src, plan, res, tail, |src.data|)
    && res.size == Some(|o.bytecode|)
    && (forall k | 0 <= k < |src.items| && src.items[k].PushTag? :: TagResolved(src, plan, res, o.tagPositions, src.items[k].data))
    && |o.bytecode| == ObjectSize(src, plan) && Finished(src, plan, o.bytecode)
  }

  /** An INVALID follows the code if anything does, and the auxiliary data comes last. */
  predicate Finished(src: Source, plan: Plan, bytecode: seq<Octet>) {
    && |src.auxiliary| <= |bytecode| && bytecode[|bytecode| - |src.auxiliary|..] == src.auxiliary
    && (src.subs != [] || src.data != [] || src.auxiliary != [] ==>
          Extent(src, plan, src.items) < |bytecode| && bytecode[Extent(src, plan, src.items)] == INVALID as Octet)
  }

  predicate TagResolved(src: Source, plan: Plan, res: Resolution, positions: seq<Option<nat>>, d: Word) {
    res.tags(d).Some? && Lookup(src, positions, plan.tagWidth, d) == Success(res.tags(d).value)
  }

  /** The tag a pushed tag refers to exists. */
  ghost predicate HasTarget(src: Source, d: Word) {
    var (sub, tag) := SplitForeign(d);
    if sub.None? then tag < src.usedTags && (tag == 0 || HasTag(src.items, tag))
    else sub.value < |src.subs| && tag < |src.subs[sub.value].tagPositions| && src.subs[sub.value].tagPositions[tag].Some?
  }

  /** What an assembly needs to be assembled. */
  ghost predicate Assemblable(src: Source) {
    && Emittable(src, src.items)
    && forall k | 0 <= k < |src.items| && src.items[k].PushTag? :: HasTarget(src, src.items[k].data)
  }

  predicate FitsAt(src: Source, plan: Plan, k: nat)
    requires k < |src.items|
  {
    Extent(src, plan, src.items[..k]) < Pow256(plan.tagWidth)
  }

  /** The position a pushed tag stands for, if there is one, fits the reserved width. */
  predicate TargetFits(src: Source, plan: Plan, d: Word) {
    var (sub, tag) := SplitForeign(d);
    if sub.Some? then
      sub.value < |src.subs| && tag < |src.subs[sub.value].tagPositions| && src.subs[sub.value].tagPositions[tag].Some? ==>
        src.subs[sub.value].tagPositions[tag].value < Pow256(plan.tagWidth)
    else if tag == 0 then
      FirstPlain(src, plan, src.items).Some? ==> FirstPlain(src, plan, src.items).value < Pow256(plan.tagWidth)
    else
      forall k | 0 <= k < |src.items| && IsTag(src.items[k], tag) :: FitsAt(src, plan, k)
  }

  /** All positions that are written into the code fit. */
  predicate PositionsFit(src: Source) {
    forall k | 0 <= k < |src.items| && src.items[k].PushTag? :: TargetFits(src, PlanOf(src), src.items[k].data)
  }

  lemma LookupTarget(src: Source, plan: Plan, positions: seq<Option<nat>>, k: nat)
    requires TagsPlaced(src, plan, src.items, positions) && k < |src.items| && src.items[k].PushTag?
    ensures var r := Lookup(src, positions, plan.tagWidth, src.items[k].data);
            var found, fits := HasTarget(src, src.items[k].data), TargetFits(src, plan, src.items[k].data);
            (r.Success? <==> found && fits) && (r == Failure(TagTooLargeForSpace) <==> found && !fits)
  {
    hide Extent, BytesRequired, Pow256, FirstPlain;
    var (sub, tag) := SplitForeign(src.items[k].data);
    FirstPlainBound(src, plan, src.items);
    if sub.None? {
      if tag < src.usedTags {
        PlacedFacts(src, plan, src.items, positions, tag);
        if positions[tag].Some? {
          PlacedFits(src, plan, positions, tag);
        }
      }
    } else if sub.value < |src.subs| {
      var table := src.subs[sub.value].tagPositions;
      if tag < |table| && table[tag].Some? {
        WidthIff(table[tag].value, plan.tagWidth);
      }
    }
  }

  lemma PlacedFits(src: Source, plan: Plan, positions: seq<Option<nat>>, tag: nat)
    requires TagsPlaced(src, plan, src.items, positions) && tag < src.usedTags && positions[tag].Some?
    ensures BytesRequired(positions[tag].value) <= plan.tagWidth <==>
              if tag == 0 then FirstPlain(src, plan, src.items).value < Pow256(plan.tagWidth)
              else forall k | 0 <= k < |src.items| && IsTag(src.items[k], tag) :: FitsAt(src, plan, k)
  {
    hide Extent, BytesRequired, Pow256, FirstPlain;
    WidthIff(positions[tag].value, plan.tagWidth);
    if tag > 0 {
      assert HasTag(src.items, tag);
      var j :| 0 <= j < |src.items| && IsTag(src.items[j], tag);
      assert PlacedAt(src, plan, src.items, j, positions);
      forall k | 0 <= k < |src.items| && IsTag(src.items[k], tag)
        ensures Extent(src, plan, src.items[..k]) == positions[tag].value
      {
        assert PlacedAt(src, plan, src.items, k, positions);
      }
    }
  }

  /** Everything the assembler checks, in terms of the assembly. */
  ghost predicate Acceptable(src: Source) {
    Assemblable(src) && PositionsFit(src) && PositionsSmall(src, PlanOf(src), src.items)
  }

  method Assemble(src: Source) returns (r: Assembled<Object>, ghost res: Resolution, ghost tail: seq<Octet>)
    requires Declared(src)
    ensures r.Success? <==> Acceptable(src)
    ensures r.Success? ==> Laid(src, PlanOf(src), res, tail, r.value)
    ensures Assemblable(src) && PositionsSmall(src, PlanOf(src), src.items) && !PositionsFit(src) ==> r == Failure(TagTooLargeForSpace)
  {
    hide PlanOf, Emitted, TagsPlaced, Emittable, SubsBehind, DataBehind, References, Lookup, TagValue, Extent, HasTarget, SubsBefore, DataBefore, PositionsFit, PositionsSmall;
    res, tail := Unresolved(), [];
    if exists k :: 0 <= k < |src.items| && src.items[k].UndefinedItem? {
      UndefinedFails(src);
      return Failure(InvalidItem), res, tail;
    }
    var plan := ComputePlan(src);
    var d := EmitItems(src, plan);
    if d.Failure? {
      return Failure(d.error), res, tail;
    }
    var draft := d.value;
    var tagged;
    tagged, res, tail := ResolveCode(src, plan, draft);
    if tagged.Failure? {
      return Failure(tagged.error), res, tail;
    }
    var bytecode;
    bytecode, res, tail := AppendRest(src, plan, tagged.value, draft, res, tail);
    r := Success(Object(bytecode, draft.tagPositions));
    forall k | 0 <= k < |src.items| && src.items[k].PushTag?
      ensures TagResolved(src, plan, res, draft.tagPositions, src.items[k].data)
    {
      ResolvedTag(src, plan, res, draft.tagPositions, src.items[k].data);
    }
  }

  lemma ResolvedTag(src: Source, plan: Plan, res: Resolution, positions: seq<Option<nat>>, d: Word)
    requires res.tags == TagValue(src, positions, plan.tagWidth) && Lookup(src, positions, plan.tagWidth, d).Success?
    ensures TagResolved(src, plan, res, positions, d)
  {
    hide Lookup;
  }

  /** Appends the sub-assemblies and resolves the tags. */
  method ResolveCode(src: Source, plan: Plan, draft: Draft)
    returns (r: Assembled<seq<Octet>>, ghost res: Resolution, ghost tail: seq<Octet>)
    requires Declared(src) && plan == PlanOf(src) && Drafted(src, plan, src.items, draft) && Emittable(src, src.items)
    ensures r.Success? <==> Assemblable(src) && PositionsFit(src)
    ensures r.Failure? && Assemblable(src) ==> r.error == TagTooLargeForSpace
    ensures r.Success? ==> Emitted(src, plan, res, tail, r.value) && SubsBehind(src, plan, res, tail, |src.subs|)
    ensures r.Success? ==> res.tags == TagValue(src, draft.tagPositions, plan.tagWidth) && res.data == Unresolved().data
    ensures r.Success? ==> forall k | 0 <= k < |src.items| && src.items[k].PushTag? :: Lookup(src, draft.tagPositions, plan.tagWidth, src.items[k].data).Success?
    ensures |tail| == Separator(src) + SubsBefore(src, |src.subs|) && Separated(src, tail)
  {
    hide PlanOf, Emitted, TagsPlaced, Emittable, Assemblable, PositionsFit, SubsBehind, References, FillAll, Code, Advances, Lookup, TagValue, Extent, HasTarget, HasTag, SubsBefore;
    res, tail := Unresolved(), [];
    var bytecode := draft.bytecode;
    if src.subs != [] || src.data != [] || src.auxiliary != [] {
      bytecode := bytecode + [INVALID as Octet];
      tail := [INVALID as Octet];
    }
    EmittedDraft(src, plan, draft, tail, bytecode);
    bytecode, res, tail := AppendSubs(src, plan, bytecode, draft.subRef, tail);
    TagsInRange(src, plan, res, tail, bytecode);
    r := ResolveTags(src, plan, bytecode, draft.tagRef, draft.tagPositions);
    TagsResolved(src, plan, draft, r);
    if r.Success? {
      AdvanceTags(src, plan, res, TagValue(src, draft.tagPositions, plan.tagWidth));
      res := FilledTags(src, plan, res, tail, bytecode, draft, r.value);
    }
  }

  /** Appends the data and the auxiliary data and fills in the size of the program. */
  method AppendRest(src: Source, plan: Plan, code: seq<Octet>, draft: Draft, ghost start: Resolution, ghost before: seq<Octet>)
    returns (bytecode: seq<Octet>, ghost res: Resolution, ghost tail: seq<Octet>)
    requires Declared(src) && Drafted(src, plan, src.items, draft)
    requires Emitted(src, plan, start, before, code) && SubsBehind(src, plan, start, before, |src.subs|)
    requires start.data == Unresolved().data && |before| == Separator(src) + SubsBefore(src, |src.subs|) && Separated(src, before)
    ensures Emitted(src, plan, res, tail, bytecode) && SubsBehind(src, plan, res, tail, |src.subs|)
    ensures DataBehind(src, plan, res, tail, |src.data|)
    ensures res.tags == start.tags && res.size == Some(|bytecode|) && |bytecode| == ObjectSize(src, plan)
    ensures Finished(src, plan, bytecode)
  {
    hide TagsPlaced, SubsBehind, DataBehind, References, FillAll, Code, Advances, Extent, SubsBefore, DataBefore;
    bytecode, res, tail := AppendData(src, plan, code, draft.dataRef, start, before);
    bytecode := bytecode + src.auxiliary;
    FinalBytes(src, plan, res, tail, bytecode);
    ghost var known := res.(size := Some(|bytecode|));
    SubsMore(src, plan, res, known, tail, src.auxiliary);
    DataMore(src, plan, res, known, tail, src.auxiliary);
    tail := tail + src.auxiliary;
    AdvanceSize(src, plan, res, |bytecode|);
    FillCode(src, plan, SizeRef, OneKey(0, |bytecode|), res, known, src.items, tail);
    CodeLength(src, plan, res, src.items);
    bytecode := FillReferences(bytecode, draft.sizeRef, plan.dataWidth, 0, |bytecode|);
    res := known;
    TailFinished(src, plan, res, tail, bytecode);
  }

  lemma TailFinished(src: Source, plan: Plan, res: Resolution, tail: seq<Octet>, bytecode: seq<Octet>)
    requires Emitted(src, plan, res, tail, bytecode) && Separated(src, tail)
    requires |src.auxiliary| <= |tail| && tail[|tail| - |src.auxiliary|..] == src.auxiliary
    ensures Finished(src, plan, bytecode)
  {
    hide Code, Extent;
    CodeLength(src, plan, res, src.items);
  }

  lemma UndefinedFails(src: Source)
    requires exists k :: 0 <= k < |src.items| && src.items[k].UndefinedItem?
    ensures !Assemblable(src)
  {
    hide HasTarget, HasTag;
    var k :| 0 <= k < |src.items| && src.items[k].UndefinedItem?;
    assert ItemError(src, src.items[k]).Some?;
  }

  lemma EmittedDraft(src: Source, plan: Plan, d: Draft, tail: seq<Octet>, bytecode: seq<Octet>)
    requires Drafted(src, plan, src.items, d) && bytecode == d.bytecode + tail
    ensures Emitted(src, plan, Unresolved(), tail, bytecode)
  {
    hide Code, References, TagsPlaced;
  }

  lemma TagsInRange(src: Source, plan: Plan, res: Resolution, tail: seq<Octet>, bytecode: seq<Octet>)
    requires Emitted(src, plan, res, tail, bytecode)
    ensures InRange(References(src, plan, TagRef, src.items), plan.tagWidth, |bytecode|)
  {
    hide Code, References, Extent;
    CodeLength(src, plan, res, src.items);
    ReferencesInRange(src, plan, TagRef, src.items);
  }

  /** The outcome of the resolution in terms of the items. */
  lemma TagsResolved(src: Source, plan: Plan, d: Draft, r: Assembled<seq<Octet>>)
    requires plan == PlanOf(src) && Drafted(src, plan, src.items, d) && Emittable(src, src.items)
    requires r.Success? <==> forall j | 0 <= j < |d.tagRef| :: Lookup(src, d.tagPositions, plan.tagWidth, d.tagRef[j].key).Success?
    requires r.Failure? ==> exists j :: 0 <= j < |d.tagRef| && Lookup(src, d.tagPositions, plan.tagWidth, d.tagRef[j].key) == Failure(r.error)
    ensures r.Success? <==> Assemblable(src) && PositionsFit(src)
    ensures r.Success? ==> forall k | 0 <= k < |src.items| && src.items[k].PushTag? :: Lookup(src, d.tagPositions, plan.tagWidth, src.items[k].data).Success?
    ensures r.Failure? && Assemblable(src) ==> r.error == TagTooLargeForSpace
  {
    hide Code, References, TagsPlaced, Emittable, PlanOf, Lookup, HasTarget, TargetFits, Extent;
    if r.Success? {
      forall k | 0 <= k < |src.items| && src.items[k].PushTag?
        ensures Lookup(src, d.tagPositions, plan.tagWidth, src.items[k].data).Success?
        ensures HasTarget(src, src.items[k].data) && TargetFits(src, plan, src.items[k].data)
      {
        ReferenceListed(src, plan, TagRef, src.items, k);
        LookupTarget(src, plan, d.tagPositions, k);
      }
    } else {
      var j :| 0 <= j < |d.tagRef| && Lookup(src, d.tagPositions, plan.tagWidth, d.tagRef[j].key) == Failure(r.error);
      ReferenceOwned(src, plan, TagRef, src.items, j);
      var k :| 0 <= k < |src.items| && KeyOf(TagRef, src.items[k]) == Some(d.tagRef[j].key);
      LookupTarget(src, plan, d.tagPositions, k);
    }
  }

  lemma FilledTags(src: Source, plan: Plan, res: Resolution, tail: seq<Octet>, bytecode: seq<Octet>, d: Draft, tagged: seq<Octet>)
    returns (res': Resolution)
    requires Emitted(src, plan, res, tail, bytecode) && Drafted(src, plan, src.items, d)
    requires |src.subs| <= SUB_BASE && SubsBehind(src, plan, res, tail, |src.subs|)
    requires tagged == FillAll(bytecode, d.tagRef, plan.tagWidth, TagValue(src, d.tagPositions, plan.tagWidth))
    requires Advances(src, plan, TagRef, TagValue(src, d.tagPositions, plan.tagWidth), res, res.(tags := TagValue(src, d.tagPositions, plan.tagWidth)))
    ensures Emitted(src, plan, res', tail, tagged) && SubsBehind(src, plan, res', tail, |src.subs|)
    ensures res'.tags == TagValue(src, d.tagPositions, plan.tagWidth) && res'.data == res.data
  {
    hide Advances, Code, References, FillAll, TagsPlaced, Extent;
    SubsMore(src, plan, res, res.(tags := TagValue(src, d.tagPositions, plan.tagWidth)), tail, []);
    assert tail + [] == tail;
    res' := res.(tags := TagValue(src, d.tagPositions, plan.tagWidth));
    FillCode(src, plan, TagRef, TagValue(src, d.tagPositions, plan.tagWidth), res, res', src.items, tail);
  }

  lemma FinalBytes(src: Source, plan: Plan, res: Resolution, tail: seq<Octet>, bytecode: seq<Octet>)
    requires bytecode == Code(src, plan, res, src.items) + tail + src.auxiliary
    ensures Emitted(src, plan, res, tail + src.auxiliary, bytecode)
    ensures InRange(References(src, plan, SizeRef, src.items), plan.dataWidth, |bytecode|)
  {
    hide Code, References, Extent;
    CodeLength(src, plan, res, src.items);
    ReferencesInRange(src, plan, SizeRef, src.items);
  }

  // ----- what the code means -----

  /** The position of the n-th instruction. */
  function StartOf(instrs: seq<Instr>, n: nat): nat
    requires n <= |instrs|
  {
    if n == 0 then 0 else StartOf(instrs, n - 1) + 1 + Additional(instrs[n - 1].opcode)
  }

  /** The operand of a tag of this assembly: the position of an instruction that is the JUMPDEST of that tag. */
  ghost predicate PointsToTag(src: Source, o: Object, instrs: seq<Instr>, tag: nat, position: nat) {
    exists j :: 0 <= j < |src.items| && j < |instrs| && IsTag(src.items[j], tag) && position == StartOf(instrs, j)
             && position < |o.bytecode| && o.bytecode[position] as int == JUMPDEST && instrs[j] == Instr(JUMPDEST, 0)
  }

  /** The number that is read back from the reserved bytes, which is the one meant exactly if it fits. */
  predicate PointsTo(data: nat, p: nat, width: nat) {
    data == p % Pow256(width) && (data == p <==> p < Pow256(width))
  }

  /** The bytes are found at their place; the reference is right exactly if the place fits. */
  predicate RefersTo(src: Source, o: Object, data: nat, p: nat, bytes: seq<Octet>) {
    Holds(o.bytecode, p, bytes) && PointsTo(data, p, PlanOf(src).dataWidth)
  }

  /** The instruction does what the item says. */
  ghost predicate Means(src: Source, o: Object, instrs: seq<Instr>, item: Item, instr: Instr)
    requires |src.subs| <= SUB_BASE
  {
    match item
    case UndefinedItem(_) => false
    case Operation(op) => instr == Instr(op, 0)
    case Tag(_) => instr == Instr(JUMPDEST, 0)
    case Push(d) => instr == Instr(PushOpcode(Max(1, BytesRequired(d))), d)
    case PushString(d) => instr.opcode == PUSH32 && d in src.strings && BigEndian(instr.data, 32) == Padded(src.strings[d])
    case PushSubSize(d) => IsPush(instr.opcode) && SubIndex(d) < |src.subs| && instr.data == |src.subs[SubIndex(d)].bytecode|
    case PushTag(d) => IsPush(instr.opcode) && TagMeans(src, o, instrs, d, instr.data)
    case PushData(d) =>
      && IsPush(instr.opcode) && (IsDatum(src, d, |src.data|) || instr.data == 0)
      && forall i | 0 <= i < |src.data| && src.data[i].key == d :: RefersTo(src, o, instr.data, DataStart(src, PlanOf(src), i), src.data[i].bytes)
    case PushSub(d) =>
      && IsPush(instr.opcode)
      && if SubIndex(d) < |src.subs|
         then RefersTo(src, o, instr.data, SubStart(src, PlanOf(src), SubIndex(d)), src.subs[SubIndex(d)].bytecode)
         else instr.data == 0
    case PushProgramSize(_) => IsPush(instr.opcode) && PointsTo(instr.data, |o.bytecode|, PlanOf(src).dataWidth)
    case PushLibraryAddress(_) => instr == Instr(PUSH20, 0)
    case PushDeployTimeAddress(_) => instr == Instr(PUSH20, 0)
  }

  ghost predicate TagMeans(src: Source, o: Object, instrs: seq<Instr>, d: Word, position: nat) {
    var (sub, tag) := SplitForeign(d);
    if sub.Some? then
      sub.value < |src.subs| && tag < |src.subs[sub.value].tagPositions| && src.subs[sub.value].tagPositions[tag] == Some(position)
    else if tag == 0 then FirstPlain(src, PlanOf(src), src.items) == Some(position)
    else PointsToTag(src, o, instrs, tag, position)
  }

  // ----- operands -----

  lemma PushOpcodeFacts(width: nat)
    requires 1 <= width <= 32
    ensures IsPush(PushOpcode(width)) && Additional(PushOpcode(width)) == width && PushOpcode(width) != STOP
  {
  }

  lemma WidthBounds(src: Source, item: Item)
    requires Fits(src) && IsPushItem(item)
    ensures 1 <= OperandWidth(src, PlanOf(src), item) <= 32
  {
    hide PlanOf, Fits, BytesRequired;
    PlanFacts(src);
    if item.PushSubSize? {
      SubSizeSmall(src, item.data);
    } else if item.Push? {
      WordWidth(item.data);
    }
  }

  lemma WordWidth(d: Word)
    ensures BytesRequired(d) <= 32
  {
    var n := 32;
    Pow256Word(n);
    if BytesRequired(d) > n {
      Pow256Monotone(n, BytesRequired(d) - 1);
    }
  }

  lemma PlanFramed(src: Source, items: seq<Item>)
    requires Fits(src)
    ensures OperandsFramed(src, PlanOf(src), items)
  {
    hide PlanOf, Fits, OperandWidth, PushOpcode, Additional;
    forall k | 0 <= k < |items| && !items[k].Operation?
      ensures Framed(src, PlanOf(src), items[k]) && Head(src, PlanOf(src), items[k]) != STOP
    {
      if IsPushItem(items[k]) {
        WidthBounds(src, items[k]);
        PushOpcodeFacts(OperandWidth(src, PlanOf(src), items[k]));
      } else {
        NoOperandFramed(src, PlanOf(src), items[k]);
      }
    }
  }

  lemma NoOperandFramed(src: Source, plan: Plan, item: Item)
    requires item.Tag? || item.UndefinedItem?
    ensures Framed(src, plan, item) && Head(src, plan, item) != STOP
  {
  }

  /** A framed item decodes to its opcode and the number that was written. */
  lemma ItemInstr(src: Source, plan: Plan, res: Resolution, item: Item)
    requires Framed(src, plan, item)
    ensures FirstInstr(Chunk(src, plan, res, item)).opcode == Head(src, plan, item)
    ensures FirstInstr(Chunk(src, plan, res, item)).data == OperandValue(src, res, item) % Pow256(OperandWidth(src, plan, item))
  {
    hide Head, OperandWidth, OperandValue, FromBytes, BigEndian, Pow256, Additional, Chunk;
    var c := Chunk(src, plan, res, item);
    ChunkHead(src, plan, res, item);
    assert c[1..|c|] == c[1..];
    BigEndianValue(OperandValue(src, res, item), OperandWidth(src, plan, item));
    PowZero();
  }

  lemma PowZero()
    ensures Pow256(0) == 1
  {
  }

  lemma OperandReads(src: Source, plan: Plan, res: Resolution, item: Item)
    requires Framed(src, plan, item) && OperandValue(src, res, item) < Pow256(OperandWidth(src, plan, item))
    ensures FirstInstr(Chunk(src, plan, res, item)).data == OperandValue(src, res, item)
  {
    hide Head, OperandWidth, OperandValue, Pow256, Chunk, FirstInstr, Framed;
    ItemInstr(src, plan, res, item);
    DivModUnique(OperandValue(src, res, item), Pow256(OperandWidth(src, plan, item)), 0, OperandValue(src, res, item));
  }

  // ----- the sizes of references -----

  lemma {:induction false} SubsBeforeBound(src: Source, n: nat)
    requires n <= |src.subs| <= SUB_BASE
    ensures SubsBefore(src, n) + SubBytes(src.subs[n..]) <= SubBytes(src.subs)
  {
    hide Refers;
    if n == 0 {
      assert src.subs[0..] == src.subs;
    } else {
      SubsBeforeBound(src, n - 1);
      assert src.subs[n - 1..][0] == src.subs[n - 1] && src.subs[n - 1..][1..] == src.subs[n..];
    }
  }

  lemma {:induction false} DataBeforeBound(src: Source, n: nat)
    requires n <= |src.data|
    ensures DataBefore(src, n) + DataBytes(src.data[n..]) <= DataBytes(src.data)
  {
    hide Refers;
    if n == 0 {
      assert src.data[0..] == src.data;
    } else {
      DataBeforeBound(src, n - 1);
      assert src.data[n - 1..][0] == src.data[n - 1] && src.data[n - 1..][1..] == src.data[n..];
    }
  }

  /** Where there is room, every place in the object can be written into a reference to data. */
  lemma ObjectAddressable(src: Source)
    requires Fits(src) && RoomForData(src) && |src.subs| <= SUB_BASE && Emittable(src, src.items)
    ensures ObjectSize(src, PlanOf(src)) < Pow256(PlanOf(src).dataWidth)
  {
    hide PlanOf, TagSizeOf, RoomForData, Extent, Pow256, BytesRequired, CodeBytes, Fits, SubsBefore, DataBefore;
    var n := Estimate(src, TagSizeOf(src)) + 1 + |src.auxiliary| + SubBytes(src.subs);
    NoneUndefined(src);
    ExtentWithinCode(src);
    PlanFacts(src);
    SubsBeforeBound(src, |src.subs|);
    DataBeforeBound(src, |src.data|);
    assert ObjectSize(src, PlanOf(src)) <= n < Pow256(BytesRequired(n));
  }

  lemma NoneUndefined(src: Source)
    requires Emittable(src, src.items)
    ensures forall item | item in src.items :: !item.UndefinedItem?
  {
    hide FirstOfItsTag;
    assert forall k | 0 <= k < |src.items| :: ItemError(src, src.items[k]).None?;
  }

  lemma ExtentWithinCode(src: Source)
    requires Fits(src) && RoomForData(src) && forall item | item in src.items :: !item.UndefinedItem?
    ensures Extent(src, PlanOf(src), src.items) <= CodeBytes(src.items, TagSizeOf(src))
  {
    hide WithinEstimate, PlanOf, TagSizeOf, Extent, RoomForData, CodeBytes, Fits;
    forall item | item in src.items
      ensures WithinEstimate(src, PlanOf(src), item, TagSizeOf(src))
    {
      ItemWithin(src, item);
    }
    ExtentWithin(src, PlanOf(src), src.items, TagSizeOf(src));
  }

  lemma HoldsBehind(code: seq<Octet>, tail: seq<Octet>, p: Option<nat>, bytes: seq<Octet>)
    requires Behind(tail, |code|, p, bytes)
    ensures Holds(code + tail, p.value, bytes)
  {
    var at := p.value - |code|;
    assert (code + tail)[p.value..p.value + |bytes|] == tail[at..at + |bytes|];
  }

  // ----- item by item -----

  lemma PlainMeans(src: Source, plan: Plan, res: Resolution, o: Object, instrs: seq<Instr>, item: Item)
    requires Fits(src) && plan == PlanOf(src) && ItemError(src, item).None? && |src.subs| <= SUB_BASE
    requires !item.PushTag? && !item.PushData? && !item.PushSub? && !item.PushProgramSize?
    ensures Means(src, o, instrs, item, FirstInstr(Chunk(src, plan, res, item)))
  {
    hide FirstInstr, Chunk, Pow256, BytesRequired, Fits, PlanOf, Framed, Padded, BigEndian, FromBytes, PushOpcode, IsLocal, Additional;
    if item.Operation? {
      OperationChunk(src, plan, res, item);
    } else {
      PlanFramed(src, [item]);
      assert [item][0] == item;
      ItemInstr(src, plan, res, item);
      if item.Tag? {
        PowZero();
      } else {
        WidthBounds(src, item);
        PushOpcodeFacts(OperandWidth(src, plan, item));
        PlainValueFits(src, plan, res, item);
        OperandReads(src, plan, res, item);
        if item.PushString? {
          FromBytesRoundTrip(Padded(StringOf(src, item.data)));
          StringOpcode();
        } else if item.PushLibraryAddress? || item.PushDeployTimeAddress? {
          TwentyOpcode();
        }
      }
    }
  }

  lemma TwentyOpcode()
    ensures PushOpcode(20) == PUSH20
  {
  }

  lemma PlainValueFits(src: Source, plan: Plan, res: Resolution, item: Item)
    requires IsPushItem(item) && !item.PushTag? && !item.PushData? && !item.PushSub? && !item.PushProgramSize?
    ensures OperandValue(src, res, item) < Pow256(OperandWidth(src, plan, item))
  {
    hide BytesRequired, FromBytes, Padded;
    if item.PushString? {
      FromBytesBound(Padded(StringOf(src, item.data)));
    } else if item.Push? {
      Pow256Monotone(BytesRequired(item.data), Max(1, BytesRequired(item.data)));
    } else if item.PushSubSize? {
      Pow256Monotone(BytesRequired(SubSize(src, item.data)), Max(1, BytesRequired(SubSize(src, item.data))));
    }
  }

  lemma ReadsAs(value: nat, width: nat)
    ensures PointsTo(value % Pow256(width), value, width)
  {
    hide Pow256;
    if value < Pow256(width) {
      DivModUnique(value, Pow256(width), 0, value);
    }
  }

  /** References to data, sub-assemblies and the size of the program. */
  lemma DataMeans(src: Source, plan: Plan, res: Resolution, tail: seq<Octet>, o: Object, instrs: seq<Instr>, k: nat)
    requires Fits(src) && plan == PlanOf(src) && Declared(src) && Laid(src, plan, res, tail, o) && k < |src.items|
    requires src.items[k].PushData? || src.items[k].PushSub? || src.items[k].PushProgramSize?
    ensures Means(src, o, instrs, src.items[k], FirstInstr(Chunk(src, plan, res, src.items[k])))
  {
    hide FirstInstr, Chunk, Pow256, BytesRequired, Fits, PlanOf, Framed, PushOpcode, Laid, Holds, IsPush, SubIndex, OperandsFramed, IsDatum, SubStart, DataStart;
    var item := src.items[k];
    SingleFramed(src, item);
    ItemInstr(src, plan, res, item);
    WidthBounds(src, item);
    PushOpcodeFacts(OperandWidth(src, plan, item));
    ReadsAs(OperandValue(src, res, item), plan.dataWidth);
    if item.PushProgramSize? {
      SizeKnown(src, plan, res, tail, o);
    } else if item.PushSub? {
      SubOperand(src, plan, res, tail, o, k);
    } else {
      forall i | 0 <= i < |src.data| && src.data[i].key == item.data
        ensures RefersTo(src, o, FirstInstr(Chunk(src, plan, res, item)).data, DataStart(src, plan, i), src.data[i].bytes)
      {
        DataOperand(src, plan, res, tail, o, k, i);
      }
      NoDatum(src, plan, res, tail, o, item.data);
    }
    ZeroMod(Pow256(plan.dataWidth));
  }

  lemma ZeroMod(p: nat)
    requires p > 0
    ensures 0 % p == 0
  {
    DivModUnique(0, p, 0, 0);
  }

  lemma NoDatum(src: Source, plan: Plan, res: Resolution, tail: seq<Octet>, o: Object, d: Word)
    requires |src.subs| <= SUB_BASE && Laid(src, plan, res, tail, o)
    ensures IsDatum(src, d, |src.data|) || res.data(d).None?
  {
    hide TagsPlaced, Emittable, SubsBehind, TagResolved, Emitted, ObjectSize, IsDatum;
  }

  lemma SingleFramed(src: Source, item: Item)
    requires Fits(src) && !item.Operation?
    ensures Framed(src, PlanOf(src), item)
  {
    hide Fits, PlanOf, Framed, Head;
    PlanFramed(src, [item]);
    assert [item][0] == item;
  }

  lemma SizeKnown(src: Source, plan: Plan, res: Resolution, tail: seq<Octet>, o: Object)
    requires |src.subs| <= SUB_BASE && Laid(src, plan, res, tail, o)
    ensures res.size == Some(|o.bytecode|)
  {
  }

  lemma SubOperand(src: Source, plan: Plan, res: Resolution, tail: seq<Octet>, o: Object, k: nat)
    requires |src.subs| <= SUB_BASE && Laid(src, plan, res, tail, o) && k < |src.items| && src.items[k].PushSub?
    ensures var i := SubIndex(src.items[k].data);
            if i < |src.subs|
            then OperandValue(src, res, src.items[k]) == SubStart(src, plan, i) && Holds(o.bytecode, SubStart(src, plan, i), src.subs[i].bytecode)
            else OperandValue(src, res, src.items[k]) == 0
  {
    hide Code, Extent, TagsPlaced, Emittable, DataBehind, TagResolved, Holds, SubsBefore, DataBefore, SubStart, ObjectSize;
    var i, code := SubIndex(src.items[k].data), Code(src, plan, res, src.items);
    CodeLength(src, plan, res, src.items);
    assert Refers(src.items, SubRef, i);
    if i < |src.subs| {
      assert SubBehind(src, plan, res, tail, i);
      HoldsBehind(code, tail, res.subs(i), src.subs[i].bytecode);
    }
  }

  lemma DataOperand(src: Source, plan: Plan, res: Resolution, tail: seq<Octet>, o: Object, k: nat, i: nat)
    requires |src.subs| <= SUB_BASE && Laid(src, plan, res, tail, o)
    requires k < |src.items| && i < |src.data| && src.items[k] == PushData(src.data[i].key)
    ensures OperandValue(src, res, src.items[k]) == DataStart(src, plan, i) && Holds(o.bytecode, DataStart(src, plan, i), src.data[i].bytes)
  {
    hide Code, Extent, TagsPlaced, Emittable, SubsBehind, TagResolved, Holds, SubsBefore, DataBefore, DataStart, ObjectSize;
    var key, code := src.data[i].key, Code(src, plan, res, src.items);
    CodeLength(src, plan, res, src.items);
    assert Refers(src.items, DataRef, key);
    assert DatumBehind(src, plan, res, tail, i);
    HoldsBehind(code, tail, res.data(key), src.data[i].bytes);
  }

  /** The start of the j-th instruction is the position of the j-th item. */
  lemma {:induction false} StartIsExtent(src: Source, plan: Plan, res: Resolution, items: seq<Item>, j: nat)
    requires j <= |items| && forall k | 0 <= k < j :: Framed(src, plan, items[k])
    ensures StartOf(Expected(src, plan, res, items), j) == Extent(src, plan, items[..j])
  {
    hide Framed, FirstInstr, Chunk;
    if j > 0 {
      StartIsExtent(src, plan, res, items, j - 1);
      assert items[..j][..j - 1] == items[..j - 1];
      ItemInstr(src, plan, res, items[j - 1]);
      FramedWidth(src, plan, items[j - 1]);
    }
  }

  lemma FramedWidth(src: Source, plan: Plan, item: Item)
    requires Framed(src, plan, item)
    ensures Additional(Head(src, plan, item)) == OperandWidth(src, plan, item)
  {
  }

  /** The byte at the position of a tag is a JUMPDEST. */
  lemma JumpdestAt(src: Source, plan: Plan, res: Resolution, items: seq<Item>, j: nat)
    requires j < |items| && items[j].Tag?
    ensures var at := Extent(src, plan, items[..j]);
            at < |Code(src, plan, res, items)| && Code(src, plan, res, items)[at] as int == JUMPDEST
  {
    hide Chunk, Extent, Code;
    RestIsRest(src, plan, res, items, j);
    CodeLength(src, plan, res, items[..j]);
    ChunkHead(src, plan, res, items[j]);
    RestHead(src, plan, res, items, j);
  }

  lemma RestHead(src: Source, plan: Plan, res: Resolution, items: seq<Item>, j: nat)
    requires j < |items|
    ensures Rest(src, plan, res, items, j) != [] && Rest(src, plan, res, items, j)[0] == Chunk(src, plan, res, items[j])[0]
  {
    hide Operand, Head;
  }

  lemma TagItemMeans(src: Source, plan: Plan, res: Resolution, tail: seq<Octet>, o: Object, k: nat)
    requires Fits(src) && plan == PlanOf(src) && |src.subs| <= SUB_BASE && Laid(src, plan, res, tail, o) && PushOperationsLast(src.items)
    requires k < |src.items| && src.items[k].PushTag?
    ensures Means(src, o, Expected(src, plan, res, src.items), src.items[k], FirstInstr(Chunk(src, plan, res, src.items[k])))
  {
    hide FirstInstr, Chunk, Pow256, BytesRequired, Fits, PlanOf, Framed, PushOpcode, Emittable, Code, References, Extent, Holds, IsPush, SubsBehind, DataBehind, Expected, TagsPlaced, SplitForeign;
    var item := src.items[k];
    PlanFramed(src, [item]);
    assert [item][0] == item;
    ItemInstr(src, plan, res, item);
    WidthBounds(src, item);
    PushOpcodeFacts(OperandWidth(src, plan, item));
    assert TagResolved(src, plan, res, o.tagPositions, item.data);
    Pow256Monotone(BytesRequired(res.tags(item.data).value), plan.tagWidth);
    OperandReads(src, plan, res, item);
    var (sub, tag) := SplitForeign(item.data);
    TagsOwn(src, plan, res, tail, o, tag);
  }

  /** A recorded position of a tag other than zero is that of its JUMPDEST. */
  lemma TagsOwn(src: Source, plan: Plan, res: Resolution, tail: seq<Octet>, o: Object, tag: nat)
    requires Fits(src) && plan == PlanOf(src) && PushOperationsLast(src.items)
    requires Emitted(src, plan, res, tail, o.bytecode) && TagsPlaced(src, plan, src.items, o.tagPositions)
    ensures |o.tagPositions| > 0 && o.tagPositions[0] == FirstPlain(src, plan, src.items)
    ensures 0 < tag < |o.tagPositions| && o.tagPositions[tag].Some? ==>
              PointsToTag(src, o, Expected(src, plan, res, src.items), tag, o.tagPositions[tag].value)
  {
    hide FirstInstr, Chunk, Fits, PlanOf, Framed, Code, Extent, StartOf, Decode;
    if 0 < tag < |o.tagPositions| && o.tagPositions[tag].Some? {
      var instrs := Expected(src, plan, res, src.items);
      assert HasTag(src.items, tag);
      var j :| 0 <= j < |src.items| && IsTag(src.items[j], tag);
      assert PlacedAt(src, plan, src.items, j, o.tagPositions);
      FramedBefore(src, j);
      StartIsExtent(src, plan, res, src.items, j);
      JumpdestAt(src, plan, res, src.items, j);
      TagInstr(src, plan, res, src.items[j]);
      assert instrs[j] == Instr(JUMPDEST, 0);
    }
  }

  lemma TagInstr(src: Source, plan: Plan, res: Resolution, item: Item)
    requires item.Tag?
    ensures FirstInstr(Chunk(src, plan, res, item)) == Instr(JUMPDEST, 0)
  {
    hide Chunk, FirstInstr;
    NoOperandFramed(src, plan, item);
    ItemInstr(src, plan, res, item);
    PowZero();
  }

  lemma FramedBefore(src: Source, j: nat)
    requires Fits(src) && j < |src.items| && PushOperationsLast(src.items)
    ensures forall k | 0 <= k < j :: Framed(src, PlanOf(src), src.items[k])
  {
    hide Fits, PlanOf, Framed;
    PlanFramed(src, src.items);
    FrontFramed(src, PlanOf(src), src.items, j);
    assert forall k | 0 <= k < j :: src.items[..j][k] == src.items[k];
  }

  /** Decoding the code section gives one instruction per item, and each does what its item says. */
  ghost predicate Faithful(src: Source, o: Object)
    requires |src.subs| <= SUB_BASE
  {
    var n := Extent(src, PlanOf(src), src.items);
    && n <= |o.bytecode|
    && var instrs := Decode(o.bytecode[..n]);
       && |instrs| == |src.items|
       && forall k | 0 <= k < |src.items| :: Means(src, o, instrs, src.items[k], instrs[k])
  }

  lemma LaidIsFaithful(src: Source, res: Resolution, tail: seq<Octet>, o: Object)
    requires Fits(src) && Declared(src) && Laid(src, PlanOf(src), res, tail, o)
    ensures Faithful(src, o) <== PushOperationsLast(src.items)
  {
    hide Means, Fits, PlanOf, Code, Extent, Framed, Decode, OperandsFramed, FirstInstr, Chunk, TagResolved, SubsBehind, DataBehind, TagsPlaced;
    if PushOperationsLast(src.items) {
      var plan := PlanOf(src);
      CodeLength(src, plan, res, src.items);
      PlanFramed(src, src.items);
      DecodesForward(src, plan, res, src.items);
      var instrs := Expected(src, plan, res, src.items);
      assert o.bytecode[..Extent(src, plan, src.items)] == Code(src, plan, res, src.items);
      forall k | 0 <= k < |src.items|
        ensures Means(src, o, instrs, src.items[k], instrs[k])
      {
        var item := src.items[k];
        assert ItemError(src, item).None?;
        if item.PushTag? {
          TagItemMeans(src, plan, res, tail, o, k);
        } else if item.PushData? || item.PushSub? || item.PushProgramSize? {
          DataMeans(src, plan, res, tail, o, instrs, k);
        } else {
          PlainMeans(src, plan, res, o, instrs, item);
        }
      }
    }
  }

  /** The assembler as its callers see it: it succeeds exactly on the assemblies whose items and tags
      are in order and whose tag positions fit, and its result decodes to what was asked for. */
  method AssembleProgram(src: Source) returns (r: Assembled<Object>)
    requires Declared(src)
    ensures r.Success? <==> Acceptable(src)
    ensures Fits(src) ==> (r.Success? <==> Assemblable(src) && PositionsFit(src))
    ensures Fits(src) && Assemblable(src) && !PositionsFit(src) ==> r == Failure(TagTooLargeForSpace)
    ensures r.Success? && Fits(src) && PushOperationsLast(src.items) ==> Faithful(src, r.value)
    ensures r.Success? ==> |r.value.bytecode| == ObjectSize(src, PlanOf(src)) && Finished(src, PlanOf(src), r.value.bytecode)
    ensures r.Success? ==> TagsPlaced(src, PlanOf(src), src.items, r.value.tagPositions)
  {
    hide Fits, PlanOf, Emitted, SubsBehind, DataBehind, TagResolved, TagsPlaced, Finished, Assemblable, PositionsFit, PositionsSmall, Faithful, PushOperationsLast;
    ghost var res, tail;
    r, res, tail := Assemble(src);
    if Fits(src) && Assemblable(src) {
      AssemblableItems(src);
      FitsSmall(src);
    }
    if r.Success? && Fits(src) {
      LaidIsFaithful(src, res, tail, r.value);
    }
  }

  lemma AssemblableItems(src: Source)
    requires Assemblable(src)
    ensures Emittable(src, src.items) && forall item | item in src.items :: !item.UndefinedItem?
  {
    NoneUndefined(src);
  }

  /** Where references to data are not wider than estimated, nothing else can go wrong: all tags fit,
      and all references to data, sub-assemblies and the size are right. */
  lemma RoomSuffices(src: Source)
    requires Declared(src) && Fits(src) && RoomForData(src) && Assemblable(src)
    ensures Acceptable(src)
    ensures ObjectSize(src, PlanOf(src)) < Pow256(PlanOf(src).dataWidth)
  {
    hide Fits, RoomForData, PlanOf, TargetFits, Emittable, PositionsSmall, Pow256, ObjectSize, Extent;
    AssemblableItems(src);
    FitsSmall(src);
    ObjectAddressable(src);
    forall k | 0 <= k < |src.items| && src.items[k].PushTag?
      ensures TargetFits(src, PlanOf(src), src.items[k].data)
    {
      RoomForTags(src, k);
    }
  }
}
