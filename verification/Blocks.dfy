/** Blocks of code as the deduplicator compares them (libevmasm/BlockDeduplicator.cpp:51-76, 125-146). */
module Blocks {
  import opened Wrappers
  import opened Words
  import opened Instructions
  import opened Items

  /** Control does not continue behind these items. */
  predicate IsTerminator(item: Item) {
    item.Operation? && AltersControlFlow(item.instr) && item.instr != JUMPI
  }

  // ----- walking through a block -----

  /** The position of the next item that is not a tag. */
  function SkipTags(items: seq<Item>, it: nat): (r: nat)
    requires it <= |items|
    ensures it <= r <= |items|
    decreases |items| - it
  {
    if it < |items| && items[it].Tag? then SkipTags(items, it + 1) else it
  }

  /** The step of the iterator: it skips tags, and goes to the end where control does not continue. */
  function NextPosition(items: seq<Item>, it: nat): (r: nat)
    requires it < |items|
    ensures it < r <= |items|
  {
    if IsTerminator(items[it]) then |items| else SkipTags(items, it + 1)
  }

  function Walk(items: seq<Item>, it: nat): seq<Item>
    requires it <= |items|
    decreases |items| - it
  {
    if it == |items| then [] else [items[it]] + Walk(items, NextPosition(items, it))
  }

  /** The items executed when control comes to the given ones and no jump is taken. */
  function Flatten(items: seq<Item>): seq<Item> {
    if items == [] then []
    else if items[0].Tag? then Flatten(items[1..])
    else if IsTerminator(items[0]) then [items[0]]
    else [items[0]] + Flatten(items[1..])
  }

  lemma {:induction false} SkipTagsFlatten(items: seq<Item>, it: nat)
    requires it <= |items|
    ensures Flatten(items[SkipTags(items, it)..]) == Flatten(items[it..])
    ensures SkipTags(items, it) < |items| ==> !items[SkipTags(items, it)].Tag?
    decreases |items| - it
  {
    if it < |items| && items[it].Tag? {
      SkipTagsFlatten(items, it + 1);
      assert items[it..][0] == items[it] && items[it..][1..] == items[it + 1..];
    }
  }

  /** The iterator visits exactly the items that are executed. */
  lemma {:induction false} WalkFlatten(items: seq<Item>, it: nat)
    requires it <= |items| && (it < |items| ==> !items[it].Tag?)
    ensures Walk(items, it) == Flatten(items[it..])
    decreases |items| - it
  {
    if it < |items| {
      assert items[it..][0] == items[it] && items[it..][1..] == items[it + 1..];
      if !IsTerminator(items[it]) {
        SkipTagsFlatten(items, it + 1);
        WalkFlatten(items, SkipTags(items, it + 1));
      }
    }
  }

  // ----- the normalised block -----

  /** The virtual tag that stands for the block itself. */
  const SELF: Word := WORD_BASE - 4

  function Unify(items: seq<Item>, own: Word): seq<Item> {
    seq(|items|, i requires 0 <= i < |items| => if items[i] == PushTag(own) then PushTag(SELF) else items[i])
  }

  /** What the block at a position is compared by. */
  function Normalised(items: seq<Item>, i: nat): seq<Item>
    requires i < |items|
  {
    if items[i].Tag? then Unify(Walk(items, NextPosition(items, i)), items[i].data) else Walk(items, i)
  }

  lemma NormalisedTag(items: seq<Item>, i: nat)
    requires i < |items| && items[i].Tag?
    ensures Normalised(items, i) == Unify(Flatten(items[i + 1..]), items[i].data)
  {
    SkipTagsFlatten(items, i + 1);
    WalkFlatten(items, SkipTags(items, i + 1));
  }

  // ----- the order of items and blocks -----

  predicate ItemLess(a: Item, b: Item) {
    Kind(a) < Kind(b) || (Kind(a) == Kind(b) && Payload(a) < Payload(b))
  }

  lemma ItemOrder(a: Item, b: Item)
    ensures ItemLess(a, b) || ItemLess(b, a) || a == b
    ensures !(ItemLess(a, b) && ItemLess(b, a)) && !ItemLess(a, a)
  {
  }

  predicate LexLess(s: seq<Item>, t: seq<Item>) {
    if t == [] then false
    else if s == [] then true
    else ItemLess(s[0], t[0]) || (s[0] == t[0] && LexLess(s[1..], t[1..]))
  }

  lemma {:induction false} LexIrreflexive(s: seq<Item>)
    ensures !LexLess(s, s)
  {
    if s != [] {
      LexIrreflexive(s[1..]);
    }
  }

  lemma {:induction false} LexTransitive(s: seq<Item>, t: seq<Item>, u: seq<Item>)
    requires LexLess(s, t) && LexLess(t, u)
    ensures LexLess(s, u)
  {
    if s != [] && s[0] == t[0] == u[0] && LexLess(s[1..], t[1..]) && LexLess(t[1..], u[1..]) {
      LexTransitive(s[1..], t[1..], u[1..]);
    }
  }

  lemma {:induction false} LexTotal(s: seq<Item>, t: seq<Item>)
    ensures LexLess(s, t) || LexLess(t, s) || s == t
  {
    if s != [] && t != [] {
      ItemOrder(s[0], t[0]);
      LexTotal(s[1..], t[1..]);
      assert s == [s[0]] + s[1..] && t == [t[0]] + t[1..];
    }
  }

  /** The comparison of two positions. */
  predicate Less(items: seq<Item>, i: nat, j: nat)
    requires i < |items| && j < |items|
  {
    i != j && LexLess(Normalised(items, i), Normalised(items, j))
  }

  /** The comparison is a strict weak order, and neither of two blocks is less than the other exactly
      when they are the same up to the names of their own tags. */
  lemma LessIsStrictWeakOrder(items: seq<Item>, i: nat, j: nat, k: nat)
    requires i < |items| && j < |items| && k < |items|
    ensures !Less(items, i, i)
    ensures Less(items, i, j) && Less(items, j, k) ==> Less(items, i, k)
    ensures !Less(items, i, j) && !Less(items, j, i) <==> Normalised(items, i) == Normalised(items, j)
  {
    var a, b, c := Normalised(items, i), Normalised(items, j), Normalised(items, k);
    LexIrreflexive(a);
    LexIrreflexive(b);
    LexTotal(a, b);
    if LexLess(a, b) && LexLess(b, c) {
      LexTransitive(a, b, c);
    }
  }

  // ----- renaming tags -----

  /** A renaming of tags. */
  type Renaming = Word -> Word

  function Renamed(k: Renaming, item: Item): Item {
    if item.PushTag? then PushTag(k(item.data)) else item
  }

  /** The items differ in the tags they push at most, and those have the same name under k. */
  ghost predicate SameUpTo(k: Renaming, s: seq<Item>, t: seq<Item>) {
    |s| == |t| && forall i | 0 <= i < |s| :: Renamed(k, s[i]) == Renamed(k, t[i])
  }

  lemma {:induction false} FlattenSame(k: Renaming, s: seq<Item>, t: seq<Item>)
    requires SameUpTo(k, s, t)
    ensures SameUpTo(k, Flatten(s), Flatten(t))
  {
    if s != [] {
      assert Renamed(k, s[0]) == Renamed(k, t[0]);
      forall i | 0 <= i < |s[1..]|
        ensures Renamed(k, s[1..][i]) == Renamed(k, t[1..][i])
      {
        assert Renamed(k, s[i + 1]) == Renamed(k, t[i + 1]);
      }
      FlattenSame(k, s[1..], t[1..]);
      var a, b := Flatten(s[1..]), Flatten(t[1..]);
      assert SameUpTo(k, [s[0]] + a, [t[0]] + b) by {
        forall i | 0 <= i < |[s[0]] + a|
          ensures Renamed(k, ([s[0]] + a)[i]) == Renamed(k, ([t[0]] + b)[i])
        {
          if i > 0 {
            assert Renamed(k, a[i - 1]) == Renamed(k, b[i - 1]);
          }
        }
      }
    }
  }

  lemma SuffixSame(k: Renaming, s: seq<Item>, t: seq<Item>, n: nat)
    requires SameUpTo(k, s, t) && n <= |s|
    ensures SameUpTo(k, s[n..], t[n..])
  {
    forall i | 0 <= i < |s[n..]|
      ensures Renamed(k, s[n..][i]) == Renamed(k, t[n..][i])
    {
      assert Renamed(k, s[n + i]) == Renamed(k, t[n + i]);
    }
  }

  /** The items behind the first occurrence of a tag. */
  function Behind(items: seq<Item>, tag: Word): Option<seq<Item>> {
    if items == [] then None
    else if items[0] == Tag(tag) then Some(items[1..])
    else Behind(items[1..], tag)
  }

  predicate UniqueTags(items: seq<Item>) {
    forall i, j | 0 <= i < j < |items| && items[i].Tag? && items[j].Tag? :: items[i].data != items[j].data
  }

  lemma {:induction false} BehindAt(items: seq<Item>, i: nat)
    requires UniqueTags(items) && i < |items| && items[i].Tag?
    ensures Behind(items, items[i].data) == Some(items[i + 1..])
  {
    if i > 0 {
      assert items[0] != Tag(items[i].data) by {
        assert items[0].Tag? ==> items[0].data != items[i].data;
      }
      TailUnique(items);
      BehindAt(items[1..], i - 1);
      assert items[1..][i..] == items[i + 1..];
    }
  }

  lemma TailUnique(items: seq<Item>)
    requires UniqueTags(items) && items != []
    ensures UniqueTags(items[1..])
  {
    forall i, j | 0 <= i < j < |items[1..]| && items[1..][i].Tag? && items[1..][j].Tag?
      ensures items[1..][i].data != items[1..][j].data
    {
      assert items[i + 1].data != items[j + 1].data;
    }
  }

  lemma {:induction false} BehindSame(k: Renaming, s: seq<Item>, t: seq<Item>, tag: Word)
    requires SameUpTo(k, s, t)
    ensures Behind(s, tag).Some? <==> Behind(t, tag).Some?
    ensures Behind(s, tag).Some? ==> SameUpTo(k, Behind(s, tag).value, Behind(t, tag).value)
  {
    if s != [] {
      assert Renamed(k, s[0]) == Renamed(k, t[0]);
      SuffixSame(k, s, t, 1);
      BehindSame(k, s[1..], t[1..], tag);
    }
  }

  /** Tags with the same name under k stand in front of code that is the same up to k. */
  ghost predicate Congruent(items: seq<Item>, k: Renaming) {
    forall t, u | k(t) == k(u) :: CongruentAt(items, k, t, u)
  }

  ghost predicate CongruentAt(items: seq<Item>, k: Renaming, t: Word, u: Word) {
    var a, b := Behind(items, t), Behind(items, u);
    && (t == u || (IsLocal(t) && IsLocal(u)))
    && (a.Some? <==> b.Some?)
    && (a.Some? ==> SameUpTo(k, Flatten(a.value), Flatten(b.value)))
  }

  lemma CongruentStart(items: seq<Item>)
    ensures Congruent(items, x => x)
  {
    var k: Renaming := x => x;
    forall t, u | k(t) == k(u)
      ensures CongruentAt(items, k, t, u)
    {
    }
  }

  /** Gives all names that t has under k to u as well. */
  function Merged(k: Renaming, t: Word, u: Word): Renaming {
    x => if k(x) == k(t) then k(u) else k(x)
  }

  lemma MergedCoarser(k: Renaming, t: Word, u: Word, s: seq<Item>, s': seq<Item>)
    requires SameUpTo(k, s, s')
    ensures SameUpTo(Merged(k, t, u), s, s')
  {
    forall i | 0 <= i < |s|
      ensures Renamed(Merged(k, t, u), s[i]) == Renamed(Merged(k, t, u), s'[i])
    {
      assert Renamed(k, s[i]) == Renamed(k, s'[i]);
    }
  }

  lemma SameTransitive(k: Renaming, a: seq<Item>, b: seq<Item>, c: seq<Item>)
    requires SameUpTo(k, a, b) && SameUpTo(k, b, c)
    ensures SameUpTo(k, a, c) && SameUpTo(k, b, a)
  {
    forall i | 0 <= i < |a|
      ensures Renamed(k, a[i]) == Renamed(k, c[i]) && Renamed(k, b[i]) == Renamed(k, a[i])
    {
      assert Renamed(k, a[i]) == Renamed(k, b[i]);
      assert Renamed(k, b[i]) == Renamed(k, c[i]);
    }
  }

  predicate NoSelf(items: seq<Item>) {
    forall i | 0 <= i < |items| :: items[i] != PushTag(SELF)
  }

  /** Blocks that are equal once their own tags are unified are the same when these tags are merged. */
  lemma UnifiedSame(k: Renaming, s: seq<Item>, t: Word, s': seq<Item>, u: Word)
    requires Unify(s, t) == Unify(s', u) && NoSelf(s) && NoSelf(s')
    ensures SameUpTo(Merged(k, t, u), s, s')
  {
    assert |Unify(s, t)| == |s| && |Unify(s', u)| == |s'|;
    forall i | 0 <= i < |s|
      ensures Renamed(Merged(k, t, u), s[i]) == Renamed(Merged(k, t, u), s'[i])
    {
      assert Unify(s, t)[i] == Unify(s', u)[i];
    }
  }

  lemma {:induction false} FlattenNoSelf(items: seq<Item>)
    requires NoSelf(items)
    ensures NoSelf(Flatten(items))
  {
    if items != [] {
      assert items[0] != PushTag(SELF);
      forall i | 0 <= i < |items[1..]|
        ensures items[1..][i] != PushTag(SELF)
      {
        assert items[1..][i] == items[i + 1];
      }
      FlattenNoSelf(items[1..]);
    }
  }

  /** Merging the tags of two equal blocks keeps the congruence. `now` is a later form of the program. */
  lemma MergeCongruent(items: seq<Item>, now: seq<Item>, k: Renaming, i: nat, j: nat)
    requires UniqueTags(items) && Congruent(items, k) && SameUpTo(k, items, now) && NoSelf(now)
    requires i < |now| && j < |now| && now[i].Tag? && now[j].Tag? && Normalised(now, i) == Normalised(now, j)
    requires IsLocal(now[i].data) && IsLocal(now[j].data)
    ensures Congruent(items, Merged(k, now[i].data, now[j].data))
  {
    hide IsLocal, SameUpTo, Unify, Flatten, Normalised, Behind;
    var t, u := now[i].data, now[j].data;
    var k' := Merged(k, t, u);
    MergedBlocks(items, now, k, i, j);
    var a, b := Behind(items, t), Behind(items, u);
    forall x, y | k'(x) == k'(y)
      ensures CongruentAt(items, k', x, y)
    {
      var p, q := Behind(items, x), Behind(items, y);
      if k(x) == k(y) {
        assert CongruentAt(items, k, x, y);
        if p.Some? {
          MergedCoarser(k, t, u, Flatten(p.value), Flatten(q.value));
        }
      } else if k(x) == k(t) {
        MergedChain(items, k, t, u, x, y);
      } else {
        MergedChain(items, k, t, u, y, x);
        if p.Some? {
          SameTransitive(k', Flatten(q.value), Flatten(p.value), Flatten(p.value));
        }
      }
    }
  }

  lemma MergedBlocks(items: seq<Item>, now: seq<Item>, k: Renaming, i: nat, j: nat)
    requires UniqueTags(items) && SameUpTo(k, items, now) && NoSelf(now)
    requires i < |now| && j < |now| && now[i].Tag? && now[j].Tag? && Normalised(now, i) == Normalised(now, j)
    ensures var t, u := now[i].data, now[j].data;
            var a, b := Behind(items, t), Behind(items, u);
            a.Some? && b.Some? && SameUpTo(Merged(k, t, u), Flatten(a.value), Flatten(b.value))
  {
    var t, u := now[i].data, now[j].data;
    var k' := Merged(k, t, u);
    assert Renamed(k, items[i]) == Renamed(k, now[i]) && Renamed(k, items[j]) == Renamed(k, now[j]);
    BehindAt(items, i);
    BehindAt(items, j);
    hide Flatten, Normalised, Unify, Behind;
    NormalisedTag(now, i);
    NormalisedTag(now, j);
    var a, b, a', b' := items[i + 1..], items[j + 1..], now[i + 1..], now[j + 1..];
    SuffixSame(k, items, now, i + 1);
    SuffixSame(k, items, now, j + 1);
    FlattenSame(k, a, a');
    FlattenSame(k, b, b');
    MergedCoarser(k, t, u, Flatten(a), Flatten(a'));
    MergedCoarser(k, t, u, Flatten(b), Flatten(b'));
    SuffixNoSelf(now, i + 1);
    SuffixNoSelf(now, j + 1);
    FlattenNoSelf(a');
    FlattenNoSelf(b');
    UnifiedSame(k, Flatten(a'), t, Flatten(b'), u);
    SameTransitive(k', Flatten(a), Flatten(a'), Flatten(b'));
    SameTransitive(k', Flatten(b), Flatten(b'), Flatten(b'));
    SameTransitive(k', Flatten(a), Flatten(b'), Flatten(b));
  }

  lemma SuffixNoSelf(items: seq<Item>, n: nat)
    requires NoSelf(items) && n <= |items|
    ensures NoSelf(items[n..])
  {
    forall i | 0 <= i < |items[n..]|
      ensures items[n..][i] != PushTag(SELF)
    {
      assert items[n..][i] == items[n + i];
    }
  }

  lemma MergedChain(items: seq<Item>, k: Renaming, t: Word, u: Word, x: Word, y: Word)
    requires Congruent(items, k) && k(x) == k(t) && k(y) == k(u) && IsLocal(t) && IsLocal(u)
    requires Behind(items, t).Some? && Behind(items, u).Some?
    requires SameUpTo(Merged(k, t, u), Flatten(Behind(items, t).value), Flatten(Behind(items, u).value))
    ensures CongruentAt(items, Merged(k, t, u), x, y)
  {
    hide SameUpTo, Flatten, Behind, Merged, IsLocal;
    var k' := Merged(k, t, u);
    assert CongruentAt(items, k, x, t) && CongruentAt(items, k, u, y);
    var fx, ft, fu, fy := Flatten(Behind(items, x).value), Flatten(Behind(items, t).value), Flatten(Behind(items, u).value), Flatten(Behind(items, y).value);
    MergedCoarser(k, t, u, fx, ft);
    MergedCoarser(k, t, u, fu, fy);
    SameTransitive(k', fx, ft, fu);
    SameTransitive(k', fx, fu, fy);
  }
}
