/** Two assemblies whose references to data are wider than the estimate of the address size allows for
    (libevmasm/Assembly.cpp:96-109 and 532). */
module NarrowAssemblies {
  import opened Wrappers
  import opened Items
  import opened Layouts
  import opened Widths
  import opened Assembling
  import opened FinalAssembly

  function Repeat(item: Item, n: nat): seq<Item> {
    if n == 0 then [] else Repeat(item, n - 1) + [item]
  }

  lemma {:induction false} RepeatExtent(src: Source, plan: Plan, items: seq<Item>, item: Item, n: nat, w: nat)
    requires w == 1 + OperandWidth(src, plan, item)
    ensures Extent(src, plan, items + Repeat(item, n)) == Extent(src, plan, items) + n * w
  {
    hide OperandWidth, Extent;
    if n == 0 {
      assert items + [] == items;
    } else {
      var front := items + Repeat(item, n - 1);
      RepeatExtent(src, plan, items, item, n - 1, w);
      assert items + Repeat(item, n) == front + [item];
      CodeSnoc(src, plan, Unresolved(), front, item);
      OneMoreTime(n, w);
    }
  }

  lemma {:induction false} RepeatBytes(items: seq<Item>, item: Item, n: nat, t: nat, w: nat)
    requires w == ItemBytes(item, t)
    ensures CodeBytes(items + Repeat(item, n), t) == CodeBytes(items, t) + n * w
  {
    hide ItemBytes, CodeBytes;
    if n == 0 {
      assert items + [] == items;
    } else {
      var front := items + Repeat(item, n - 1);
      RepeatBytes(items, item, n - 1, t, w);
      assert items + Repeat(item, n) == front + [item];
      CodeBytesSnoc(front, item, t);
      OneMoreTime(n, w);
    }
  }

  lemma {:induction false} RepeatShape(item: Item, n: nat)
    ensures |Repeat(item, n)| == n && forall k | 0 <= k < n :: Repeat(item, n)[k] == item
  {
    if n > 0 {
      RepeatShape(item, n - 1);
    }
  }

  lemma OneMoreTime(n: nat, x: int)
    requires n > 0
    ensures n * x == (n - 1) * x + x
  {
  }

  lemma ExactWidth(n: nat, r: nat)
    requires r > 0 && Pow256(r - 1) <= n < Pow256(r)
    ensures BytesRequired(n) == r
  {
    hide BytesRequired, Pow256;
    WidthIff(n, r);
    WidthIff(n, r - 1);
  }

  // -- ten references to a sub-assembly of 300 bytes move the tag behind them out of reach --

  function CrowdedItems(): seq<Item> {
    Repeat(PushString(0), 7) + Repeat(PushSub(0), 10) + [PushTag(1)] + [Tag(1)]
  }

  function Crowded(): Source {
    Source(CrowdedItems(), 2, [], [SubObject(seq(300, i => 0), [])], map[0 := []], {}, [])
  }

  lemma CrowdedFront(plan: Plan, t: nat)
    ensures var front := Repeat(PushString(0), 7) + Repeat(PushSub(0), 10);
            && Extent(Crowded(), plan, front) == 7 * 33 + 10 * (1 + plan.dataWidth)
            && CodeBytes(front, t) == 7 * 33 + 10 * (1 + t)
  {
    hide Extent, CodeBytes, CrowdedItems;
    var a := Repeat(PushString(0), 7);
    RepeatExtent(Crowded(), plan, [], PushString(0), 7, 33);
    RepeatBytes([], PushString(0), 7, t, 33);
    assert [] + a == a;
    RepeatExtent(Crowded(), plan, a, PushSub(0), 10, 1 + plan.dataWidth);
    RepeatBytes(a, PushSub(0), 10, t, 1 + t);
    NothingEmitted(Crowded(), plan, t);
  }

  lemma CrowdedSizes(plan: Plan, t: nat)
    ensures Extent(Crowded(), plan, CrowdedItems()[..18]) == 7 * 33 + 10 * (1 + plan.dataWidth) + 1 + plan.tagWidth
    ensures CodeBytes(CrowdedItems(), t) == 7 * 33 + 11 * (1 + t) + 1
  {
    hide Extent, CodeBytes, Repeat;
    var front := Repeat(PushString(0), 7) + Repeat(PushSub(0), 10);
    CrowdedFront(plan, t);
    CodeSnoc(Crowded(), plan, Unresolved(), front, PushTag(1));
    CodeBytesSnoc(front, PushTag(1), t);
    CodeBytesSnoc(front + [PushTag(1)], Tag(1), t);
    CrowdedShape();
    assert CrowdedItems()[..18] == front + [PushTag(1)];
  }

  lemma NothingEmitted(src: Source, plan: Plan, t: nat)
    ensures Extent(src, plan, []) == 0 && CodeBytes([], t) == 0
  {
  }

  lemma CrowdedShape()
    ensures var items := CrowdedItems();
            && |items| == 19 && items[17] == PushTag(1) && items[18] == Tag(1)
            && (forall k | 0 <= k < 7 :: items[k] == PushString(0)) && (forall k | 7 <= k < 17 :: items[k] == PushSub(0))
  {
    hide Repeat;
    RepeatShape(PushString(0), 7);
    RepeatShape(PushSub(0), 10);
  }

  /** The plan of a small assembly with sub-assemblies of medium size. */
  lemma SmallPlan(src: Source, e: nat)
    requires LargestTag(src.subs, 1) == 1 && Estimate(src, 1) == e && 0 < e < 0x100
    requires 0x100 <= e + 1 + |src.auxiliary| + SubBytes(src.subs) < 0x1_0000
    ensures PlanOf(src) == Plan(1, 2)
  {
    hide BytesRequired, Pow256, Estimate, LargestTag, SubBytes;
    SmallPowers();
    ExactWidth(e, 1);
    ExactWidth(e + 1 + |src.auxiliary| + SubBytes(src.subs), 2);
  }

  lemma CrowdedPlan()
    ensures PlanOf(Crowded()) == Plan(1, 2) && Fits(Crowded())
  {
    hide CrowdedItems, CodeBytes, PlanOf;
    var src := Crowded();
    CrowdedSizes(Plan(1, 1), 1);
    CrowdedSizes(Plan(1, 1), 4);
    OneSub(src, src.subs[0]);
    SmallPlan(src, 255);
  }

  lemma TruncatedPlan()
    ensures PlanOf(Truncated()) == Plan(1, 2) && Fits(Truncated())
  {
    hide CodeBytes, PlanOf;
    var src := Truncated();
    TruncatedSizes(Plan(1, 1), 1);
    TruncatedSizes(Plan(1, 1), 4);
    TwoSubs(src, src.subs[0], src.subs[1]);
    SmallPlan(src, 7);
  }

  lemma SmallPowers()
    ensures Pow256(0) == 1 && Pow256(1) == 0x100 && Pow256(2) == 0x1_0000
  {
  }

  lemma OneSub(src: Source, sub: SubObject)
    requires src.subs == [sub] && sub.tagPositions == []
    ensures LargestTag(src.subs, 1) == 1 && SubBytes(src.subs) == |sub.bytecode|
  {
    assert src.subs[1..] == [];
  }

  lemma CrowdedAssemblable()
    ensures Declared(Crowded()) && Assemblable(Crowded())
  {
    hide CrowdedItems;
    var src := Crowded();
    CrowdedShape();
    assert IsTag(src.items[18], 1);
    assert HasTag(src.items, 1);
    assert SplitForeign(1) == (None, 1);
    forall k | 0 <= k < |src.items|
      ensures FirstOfItsTag(src.items, k) && ItemError(src, src.items[k]).None?
    {
      assert src.items[k].Tag? ==> k == 18;
      assert forall j | 0 <= j < 18 :: src.items[..18][j] == src.items[j];
    }
  }

  lemma CrowdedUnfit()
    ensures !PositionsFit(Crowded())
  {
    hide PlanOf, CrowdedItems, Extent;
    var src := Crowded();
    CrowdedShape();
    CrowdedPlan();
    CrowdedSizes(PlanOf(src), 1);
    hide Pow256, OperandWidth;
    SmallPowers();
    assert SplitForeign(1) == (None, 1);
    assert IsTag(src.items[18], 1) && !FitsAt(src, PlanOf(src), 18);
    assert !TargetFits(src, PlanOf(src), src.items[17].data);
  }

  /** All tags of this assembly are in order, and yet the assembler refuses it. */
  lemma CrowdedRefused()
    ensures Declared(Crowded()) && Fits(Crowded()) && Assemblable(Crowded()) && !PositionsFit(Crowded())
  {
    hide PlanOf, Fits, CrowdedItems, Declared, Assemblable, PositionsFit;
    CrowdedAssemblable();
    CrowdedUnfit();
    CrowdedPlan();
  }

  // -- three references are enough to truncate the last of them --

  function Truncated(): Source {
    Source([PushSub(0), PushSub(0), PushSub(1)], 1, [], [SubObject(seq(65526, i => 0), []), SubObject([1], [])], map[], {}, [])
  }

  lemma TruncatedAcceptable()
    ensures Declared(Truncated()) && Acceptable(Truncated())
  {
    hide PlanOf, Extent;
    var src := Truncated();
    assert forall k | 0 <= k < |src.items| :: src.items[k].PushSub?;
  }

  lemma TruncatedStart()
    ensures SubStart(Truncated(), PlanOf(Truncated()), 1) == 0x1_0000
  {
    hide PlanOf, Extent;
    var src := Truncated();
    TruncatedPlan();
    TruncatedSizes(PlanOf(src), 1);
    assert KeyOf(SubRef, src.items[0]) == Some(0);
    assert Refers(src.items, SubRef, 0);
    assert SubsBefore(src, 0) == 0;
  }

  /** The assembler accepts this assembly and writes zero as the place of the second sub-assembly. */
  lemma TruncatedReference()
    ensures var src := Truncated();
            && Declared(src) && Fits(src) && Acceptable(src)
            && SubStart(src, PlanOf(src), 1) == 0x1_0000 == Pow256(PlanOf(src).dataWidth)
  {
    hide PlanOf, Fits, SubStart, Acceptable, Pow256;
    TruncatedAcceptable();
    TruncatedStart();
    TruncatedPlan();
    SmallPowers();
  }

  lemma TruncatedSizes(plan: Plan, t: nat)
    ensures Extent(Truncated(), plan, Truncated().items) == 3 * (1 + plan.dataWidth)
    ensures CodeBytes(Truncated().items, t) == 3 * (1 + t)
  {
    hide Extent, CodeBytes;
    var src := Truncated();
    var a := [PushSub(0)];
    CodeSnoc(src, plan, Unresolved(), [], PushSub(0));
    CodeSnoc(src, plan, Unresolved(), a, PushSub(0));
    CodeSnoc(src, plan, Unresolved(), a + a, PushSub(1));
    CodeBytesSnoc([], PushSub(0), t);
    CodeBytesSnoc(a, PushSub(0), t);
    CodeBytesSnoc(a + a, PushSub(1), t);
    assert [] + a == a && a + a + [PushSub(1)] == src.items;
    NothingEmitted(src, plan, t);
  }

  lemma TwoSubs(src: Source, a: SubObject, b: SubObject)
    requires src.subs == [a, b] && a.tagPositions == [] && b.tagPositions == []
    ensures LargestTag(src.subs, 1) == 1 && SubBytes(src.subs) == |a.bytecode| + |b.bytecode|
  {
    assert src.subs[1..] == [b] && [b][1..] == [];
    assert LargestTag([], 1) == 1 && SubBytes([]) == 0;
    assert LargestTag([b], 1) == 1 && SubBytes([b]) == |b.bytecode|;
  }
}
