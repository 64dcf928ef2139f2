/** Unifies blocks that share content (libevmasm/BlockDeduplicator.cpp:37-123). */
module Deduplication {
  import opened Words
  import opened Items
  import opened Blocks
  import opened Labels

  /** Tags are numbered with 64 bits, and a pushed tag names a sub-assembly with 64 more. */
  predicate WellTagged(items: seq<Item>) {
    forall i | 0 <= i < |items| :: TagFits(items[i])
  }

  predicate TagFits(item: Item) {
    (item.Tag? ==> item.data < SUB_BASE) && (item.PushTag? ==> item.data < SUB_BASE * SUB_BASE)
  }

  lemma LocalFits(item: Item)
    requires item.PushTag? && TagFits(item)
    ensures IsLocal(item.data) <==> item.data < SUB_BASE
    ensures IsLocal(item.data) ==> SplitForeign(item.data).1 == item.data
  {
  }

  // ----- positions of tags -----

  /** One more than the position of a tag, or zero if there is no such tag. */
  function Rank(items: seq<Item>, tag: Word): nat {
    if items == [] then 0
    else if items[|items| - 1] == Tag(tag) then |items|
    else Rank(items[..|items| - 1], tag)
  }

  lemma {:induction false} RankAt(items: seq<Item>, i: nat)
    requires UniqueTags(items) && i < |items| && items[i].Tag?
    ensures Rank(items, items[i].data) == i + 1
  {
    var n := |items| - 1;
    if i < n {
      assert items[n] != Tag(items[i].data) by {
        assert items[n].Tag? ==> items[i].data != items[n].data;
      }
      RankAt(items[..n], i);
    }
  }

  /** The sum of the ranks of all pushed tags. */
  function Weight(tags: seq<Item>, items: seq<Item>): nat {
    if items == [] then 0
    else (if items[0].PushTag? then Rank(tags, items[0].data) else 0) + Weight(tags, items[1..])
  }

  lemma {:induction false} SameRank(s: seq<Item>, t: seq<Item>, tag: Word)
    requires SameTags(s, t)
    ensures Rank(s, tag) == Rank(t, tag)
  {
    if s != [] {
      SameRank(s[..|s| - 1], t[..|t| - 1], tag);
    }
  }

  /** The weight depends on the places of the tags only, and on what is pushed. */
  lemma {:induction false} SameWeight(s: seq<Item>, t: seq<Item>, items: seq<Item>)
    requires SameTags(s, t)
    ensures Weight(s, items) == Weight(t, items)
  {
    hide Rank, SameTags;
    if items != [] {
      if items[0].PushTag? {
        SameRank(s, t, items[0].data);
      }
      SameWeight(s, t, items[1..]);
    }
  }

  // ----- replacing tags -----

  function Replaced(replacements: map<Word, Word>, item: Item): Item {
    if item.PushTag? && IsLocal(item.data) && SplitForeign(item.data).1 in replacements
    then PushTag(replacements[SplitForeign(item.data).1] % SUB_BASE)
    else item
  }

  function AllReplaced(replacements: map<Word, Word>, items: seq<Item>): seq<Item> {
    seq(|items|, i requires 0 <= i < |items| => Replaced(replacements, items[i]))
  }

  /** Every replacement goes to an earlier tag of the same name. */
  ghost predicate ReplacementsOk(tags: seq<Item>, k: Renaming, replacements: map<Word, Word>) {
    forall t | t in replacements ::
      && replacements[t] < SUB_BASE && k(t) == k(replacements[t])
      && Rank(tags, replacements[t]) < Rank(tags, t)
  }

  lemma ReplacedSame(tags: seq<Item>, k: Renaming, replacements: map<Word, Word>, item: Item)
    requires ReplacementsOk(tags, k, replacements) && TagFits(item)
    ensures Renamed(k, Replaced(replacements, item)) == Renamed(k, item)
    ensures TagFits(Replaced(replacements, item)) && (item.Tag? ==> Replaced(replacements, item) == item)
    ensures Replaced(replacements, item).Tag? ==> item.Tag?
    ensures item != Replaced(replacements, item) ==>
              item.PushTag? && Replaced(replacements, item).PushTag? &&
              Rank(tags, Replaced(replacements, item).data) < Rank(tags, item.data)
    ensures item.PushTag? && IsLocal(item.data) && item.data in replacements ==> Replaced(replacements, item) != item
  {
    if item.PushTag? {
      LocalFits(item);
    }
  }

  lemma AllReplacedSame(tags: seq<Item>, k: Renaming, replacements: map<Word, Word>, items: seq<Item>)
    requires ReplacementsOk(tags, k, replacements) && WellTagged(items)
    ensures SameUpTo(k, items, AllReplaced(replacements, items)) && WellTagged(AllReplaced(replacements, items))
    ensures SameTags(items, AllReplaced(replacements, items))
  {
    forall i | 0 <= i < |items|
      ensures Renamed(k, items[i]) == Renamed(k, AllReplaced(replacements, items)[i])
      ensures TagFits(AllReplaced(replacements, items)[i])
      ensures items[i].Tag? || AllReplaced(replacements, items)[i].Tag? ==> AllReplaced(replacements, items)[i] == items[i]
    {
      assert TagFits(items[i]);
      ReplacedSame(tags, k, replacements, items[i]);
    }
  }

  lemma {:induction false} AllReplacedLighter(tags: seq<Item>, k: Renaming, replacements: map<Word, Word>, items: seq<Item>)
    requires ReplacementsOk(tags, k, replacements) && WellTagged(items)
    ensures Weight(tags, AllReplaced(replacements, items)) <= Weight(tags, items)
    ensures AllReplaced(replacements, items) != items ==> Weight(tags, AllReplaced(replacements, items)) < Weight(tags, items)
  {
    if items != [] {
      assert TagFits(items[0]);
      ReplacedSame(tags, k, replacements, items[0]);
      forall i | 0 <= i < |items[1..]|
        ensures TagFits(items[1..][i])
      {
        assert items[1..][i] == items[i + 1];
      }
      AllReplacedLighter(tags, k, replacements, items[1..]);
      var all := AllReplaced(replacements, items);
      assert all[1..] == AllReplaced(replacements, items[1..]);
      assert items == [items[0]] + items[1..] && all == [all[0]] + all[1..];
    }
  }

  /** The same tags at the same places. */
  predicate SameTags(s: seq<Item>, t: seq<Item>) {
    |s| == |t| && forall i | 0 <= i < |s| && (s[i].Tag? || t[i].Tag?) :: s[i] == t[i]
  }

  lemma SameTagsFacts(s: seq<Item>, t: seq<Item>, u: seq<Item>)
    requires SameTags(s, t)
    ensures UniqueTags(s) ==> UniqueTags(t)
    ensures SameTags(t, u) ==> SameTags(s, u)
  {
  }

  /** A block is known under the first position that holds an equal one. */
  ghost predicate Seen(items: seq<Item>, seen: set<nat>, replacements: map<Word, Word>, j: nat)
    requires j < |items|
  {
    && (exists s | s in seen && s <= j :: Normalised(items, s) == Normalised(items, j))
    && (j in seen || (items[j].Tag? && items[j].data in replacements))
  }

  /** No two equal blocks have been seen. */
  ghost predicate Distinct(items: seq<Item>, seen: set<nat>) {
    forall s, t | s in seen && t in seen && s < |items| && t < |items| && Normalised(items, s) == Normalised(items, t) :: s == t
  }

  predicate NoSelfTag(items: seq<Item>) {
    forall i | 0 <= i < |items| :: items[i] != Tag(SELF)
  }

  predicate Hit(replacements: map<Word, Word>, item: Item) {
    item.PushTag? && IsLocal(item.data) && SplitForeign(item.data).1 in replacements
  }

  /** No item is affected by the replacements. */
  predicate Untouched(replacements: map<Word, Word>, items: seq<Item>) {
    forall i | 0 <= i < |items| :: !Hit(replacements, items[i])
  }

  lemma UntouchedNext(replacements: map<Word, Word>, items: seq<Item>, item: Item)
    ensures Untouched(replacements, items + [item]) <==> Untouched(replacements, items) && !Hit(replacements, item)
  {
    var more := items + [item];
    assert more[|items|] == item;
    assert forall i | 0 <= i < |items| :: more[i] == items[i];
  }

  /** All but the first of several equal blocks have their tag replaced. */
  ghost predicate Covered(items: seq<Item>, replacements: map<Word, Word>) {
    forall i, j | 0 <= i < j < |items| && items[i].Tag? && items[j].Tag? && Normalised(items, i) == Normalised(items, j) ::
      items[j].data in replacements
  }

  lemma SeenEqual(items: seq<Item>, seen: set<nat>, found: set<nat>, i: nat)
    requires i < |items| && (forall s | s in seen :: s < |items|)
    requires found == set s | s in seen && !Less(items, s, i) && !Less(items, i, s)
    ensures forall s | s in seen :: s in found <==> Normalised(items, s) == Normalised(items, i)
  {
    hide Less, Normalised;
    forall s | s in seen
      ensures s in found <==> Normalised(items, s) == Normalised(items, i)
    {
      LessIsStrictWeakOrder(items, s, i, i);
    }
  }

  lemma SeenFresh(items: seq<Item>, seen: set<nat>, replacements: map<Word, Word>, i: nat)
    requires i < |items| && items[i].Tag? && (forall s | s in seen :: s < i && items[s].Tag?) && Distinct(items, seen)
    requires forall s | s in seen :: Normalised(items, s) != Normalised(items, i)
    requires forall j | 0 <= j < i && items[j].Tag? :: Seen(items, seen, replacements, j)
    ensures Distinct(items, seen + {i})
    ensures forall j | 0 <= j <= i && items[j].Tag? :: Seen(items, seen + {i}, replacements, j)
  {
    hide Normalised;
    forall j | 0 <= j <= i && items[j].Tag?
      ensures Seen(items, seen + {i}, replacements, j)
    {
      if j < i {
        assert Seen(items, seen, replacements, j);
      } else {
        assert i in seen + {i};
      }
    }
  }

  lemma SeenAgain(items: seq<Item>, seen: set<nat>, replacements: map<Word, Word>, i: nat, s: nat)
    requires i < |items| && items[i].Tag? && (forall s | s in seen :: s < i && items[s].Tag?)
    requires s in seen && Normalised(items, s) == Normalised(items, i)
    requires forall j | 0 <= j < i && items[j].Tag? :: Seen(items, seen, replacements, j)
    ensures forall j | 0 <= j <= i && items[j].Tag? ::
              Seen(items, seen, replacements[items[i].data := items[s].data], j)
  {
    hide Normalised;
    forall j | 0 <= j <= i && items[j].Tag?
      ensures Seen(items, seen, replacements[items[i].data := items[s].data], j)
    {
      if j < i {
        assert Seen(items, seen, replacements, j);
      }
    }
  }

  lemma AllCovered(items: seq<Item>, seen: set<nat>, replacements: map<Word, Word>)
    requires (forall s | s in seen :: s < |items|) && Distinct(items, seen)
    requires forall j | 0 <= j < |items| && items[j].Tag? :: Seen(items, seen, replacements, j)
    ensures Covered(items, replacements)
  {
    hide Normalised;
    forall i, j | 0 <= i < j < |items| && items[i].Tag? && items[j].Tag? && Normalised(items, i) == Normalised(items, j)
      ensures items[j].data in replacements
    {
      assert Seen(items, seen, replacements, i) && Seen(items, seen, replacements, j);
    }
  }

  /** One more pair of equal blocks. */
  lemma NewReplacement(original: seq<Item>, items: seq<Item>, k: Renaming, replacements: map<Word, Word>, i: nat, s: nat)
    requires UniqueTags(original) && Congruent(original, k) && SameUpTo(k, original, items) && SameTags(original, items)
    requires WellTagged(items) && NoSelf(items) && ReplacementsOk(original, k, replacements)
    requires s < i < |items| && items[i].Tag? && items[s].Tag? && Normalised(items, s) == Normalised(items, i)
    ensures var k' := Merged(k, items[i].data, items[s].data);
            && Congruent(original, k') && SameUpTo(k', original, items)
            && ReplacementsOk(original, k', replacements[items[i].data := items[s].data])
  {
    hide Congruent, SameUpTo, NoSelf, Normalised, UniqueTags;
    assert TagFits(items[i]) && TagFits(items[s]);
    MergeCongruent(original, items, k, i, s);
    MergedCoarser(k, items[i].data, items[s].data, original, items);
    assert original[i] == items[i] && original[s] == items[s];
    RankAt(original, i);
    RankAt(original, s);
  }

  lemma {:induction false} NothingReplaced(replacements: map<Word, Word>, items: seq<Item>)
    requires Untouched(replacements, items)
    ensures AllReplaced(replacements, items) == items
  {
    forall i | 0 <= i < |items|
      ensures AllReplaced(replacements, items)[i] == items[i]
    {
      assert !Hit(replacements, items[i]);
    }
  }

  lemma SomethingReplaced(tags: seq<Item>, k: Renaming, replacements: map<Word, Word>, items: seq<Item>)
    requires ReplacementsOk(tags, k, replacements) && WellTagged(items) && !Untouched(replacements, items)
    ensures AllReplaced(replacements, items) != items
  {
    hide ReplacementsOk;
    var i :| 0 <= i < |items| && Hit(replacements, items[i]);
    assert TagFits(items[i]);
    LocalFits(items[i]);
    ReplacedSame(tags, k, replacements, items[i]);
    assert AllReplaced(replacements, items)[i] != items[i];
  }

  /** What one round of replacements achieves. */
  lemma Round(original: seq<Item>, before: seq<Item>, after: seq<Item>, k: Renaming, replacements: map<Word, Word>, again: bool)
    requires UniqueTags(original) && SameUpTo(k, original, before) && SameTags(original, before) && WellTagged(before)
    requires ReplacementsOk(original, k, replacements) && NoSelf(before) && NoSelfTag(before)
    requires after == AllReplaced(replacements, before) && (again <==> !Untouched(replacements, before))
    ensures SameUpTo(k, original, after) && SameTags(original, after) && WellTagged(after)
    ensures !again ==> after == before && (Covered(before, replacements) ==> Deduplicated(after))
    ensures again ==> Weight(original, after) < Weight(original, before) && NoSelf(after) && NoSelfTag(after)
  {
    hide SameUpTo, SameTags, WellTagged, ReplacementsOk, Weight, Normalised, UniqueTags;
    AllReplacedLighter(original, k, replacements, before);
    AllReplacedSame(original, k, replacements, before);
    SameTransitive(k, original, before, after);
    SameTagsFacts(original, before, after);
    if again {
      SomethingReplaced(original, k, replacements, before);
      StillNoSelf(original, k, replacements, before);
    } else {
      NothingReplaced(replacements, before);
      if Covered(before, replacements) {
        FirstOfKind(before, replacements);
      }
    }
  }

  lemma FirstOfKind(items: seq<Item>, replacements: map<Word, Word>)
    requires WellTagged(items) && Untouched(replacements, items) && Covered(items, replacements)
    ensures Deduplicated(items)
  {
    hide Normalised;
    forall i, j, p | 0 <= i < j < |items| && items[i].Tag? && items[j].Tag? && Normalised(items, i) == Normalised(items, j)
                     && 0 <= p < |items| && items[p].PushTag?
      ensures items[p].data != items[j].data
    {
      assert TagFits(items[p]) && TagFits(items[j]);
      LocalFits(items[p]);
      assert !Hit(replacements, items[p]);
    }
  }

  lemma StillNoSelf(tags: seq<Item>, k: Renaming, replacements: map<Word, Word>, items: seq<Item>)
    requires ReplacementsOk(tags, k, replacements) && WellTagged(items) && NoSelf(items) && NoSelfTag(items)
    ensures NoSelf(AllReplaced(replacements, items)) && NoSelfTag(AllReplaced(replacements, items))
  {
    hide ReplacementsOk;
    forall i | 0 <= i < |items|
      ensures AllReplaced(replacements, items)[i] != PushTag(SELF) && AllReplaced(replacements, items)[i] != Tag(SELF)
    {
      assert items[i] != PushTag(SELF) && items[i] != Tag(SELF);
    }
  }

  /** In the end every pushed tag is the first of its kind. */
  ghost predicate Deduplicated(items: seq<Item>) {
    forall i, j, p | 0 <= i < j < |items| && items[i].Tag? && items[j].Tag? && Normalised(items, i) == Normalised(items, j)
                     && 0 <= p < |items| && items[p].PushTag? :: items[p].data != items[j].data
  }

  class BlockDeduplicator {
    var items: seq<Item>
    var replacedTags: map<Word, Word>

    constructor (items: seq<Item>)
      ensures this.items == items && replacedTags == map[]
    {
      this.items := items;
      replacedTags := map[];
    }

    /** Pushes the first of several tags that stand in front of equal blocks instead of the others. */
    method Deduplicate() returns (changed: bool, ghost k: Renaming)
      requires UniqueTags(items) && WellTagged(items) && replacedTags == map[]
      modifies this
      ensures Congruent(old(items), k) && SameUpTo(k, old(items), items) && SameTags(old(items), items)
      ensures BehavesUpTo(k, old(items), items)
      ensures !changed ==> items == old(items)
      ensures changed ==> Weight(items, items) < Weight(old(items), old(items))
      ensures WellTagged(items)
      ensures Tag(SELF) !in old(items) && PushTag(SELF) !in old(items) ==> Deduplicated(items)
    {
      ghost var original := items;
      CongruentStart(items);
      k := x => x;
      if Tag(SELF) in items || PushTag(SELF) in items {
        AlwaysBehaves(original, items, k);
        return false, k;
      }
      changed := false;
      while true
        invariant Congruent(original, k) && SameUpTo(k, original, items) && SameTags(original, items) && WellTagged(items)
        invariant ReplacementsOk(original, k, replacedTags) && NoSelf(items) && NoSelfTag(items)
        invariant if changed then Weight(original, items) < Weight(original, original) else items == original
        decreases Weight(original, items)
      {
        hide Congruent, SameUpTo, SameTags, WellTagged, ReplacementsOk, NoSelf, NoSelfTag, Weight, AllReplaced, Covered, Deduplicated, Untouched, BehavesUpTo;
        k := FindReplacements(original, k);
        ghost var before := items;
        var again := ApplyTagReplacement();
        Round(original, before, items, k, replacedTags, again);
        if !again {
          AlwaysBehaves(original, items, k);
          SameWeight(original, items, items);
          return;
        }
        changed := true;
      }
    }

    /** Finds the blocks that are equal to earlier ones. */
    method FindReplacements(ghost original: seq<Item>, ghost k: Renaming) returns (ghost k': Renaming)
      requires UniqueTags(original) && Congruent(original, k) && SameUpTo(k, original, items) && SameTags(original, items)
      requires WellTagged(items) && NoSelf(items) && ReplacementsOk(original, k, replacedTags)
      modifies `replacedTags
      ensures Congruent(original, k') && SameUpTo(k', original, items) && ReplacementsOk(original, k', replacedTags)
      ensures Covered(items, replacedTags)
    {
      hide Congruent, SameUpTo, ReplacementsOk, NoSelf, Normalised, Less;
      k' := k;
      var seen: set<nat> := {};
      var i := 0;
      while i < |items|
        invariant 0 <= i <= |items| && (forall s | s in seen :: s < i && items[s].Tag?)
        invariant Congruent(original, k') && SameUpTo(k', original, items) && ReplacementsOk(original, k', replacedTags)
        invariant Distinct(items, seen)
        invariant forall j | 0 <= j < i && items[j].Tag? :: Seen(items, seen, replacedTags, j)
      {
        if items[i].Tag? {
          var found: set<nat> := set s | s in seen && !Less(items, s, i) && !Less(items, i, s);
          SeenEqual(items, seen, found, i);
          if found == {} {
            SeenFresh(items, seen, replacedTags, i);
            seen := seen + {i};
          } else {
            var s :| s in found;
            SeenAgain(items, seen, replacedTags, i, s);
            NewReplacement(original, items, k', replacedTags, i, s);
            k' := Merged(k', items[i].data, items[s].data);
            replacedTags := replacedTags[items[i].data := items[s].data];
          }
        }
        i := i + 1;
      }
      AllCovered(items, seen, replacedTags);
    }

    /** Replaces all pushed tags that match a key of the replacements. */
    method ApplyTagReplacement() returns (changed: bool)
      modifies `items
      ensures items == AllReplaced(replacedTags, old(items))
      ensures changed <==> !Untouched(replacedTags, old(items))
    {
      ghost var before := items;
      changed := false;
      var i := 0;
      while i < |items|
        invariant 0 <= i <= |items| == |before|
        invariant forall j | 0 <= j < i :: items[j] == Replaced(replacedTags, before[j])
        invariant forall j | i <= j < |items| :: items[j] == before[j]
        invariant changed <==> !Untouched(replacedTags, before[..i])
      {
        var item := items[i];
        assert before[..i + 1] == before[..i] + [before[i]];
        UntouchedNext(replacedTags, before[..i], before[i]);
        if item.PushTag? {
          var (subId, tagId) := SplitForeign(item.data);
          if subId.None? && tagId in replacedTags {
            changed := true;
            items := items[i := PushTag(replacedTags[tagId] % SUB_BASE)];
          }
        }
        i := i + 1;
      }
      assert before[..i] == before;
    }
  }
}
