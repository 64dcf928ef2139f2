/** One round of the optimiser over all its passes (libevmasm/Assembly.cpp:405-488). */
module Optimising {
  import opened Wrappers
  import opened Words
  import opened Items
  import opened Machine
  import opened Rewriting
  import opened Peephole
  import opened JumpdestRemoval
  import opened Blocks
  import opened Labels
  import opened Deduplication
  import opened Classes
  import opened FreeGas
  import opened CsePass

  datatype Settings = Settings(runJumpdestRemover: bool, runPeephole: bool, runDeduplicate: bool, runCSE: bool)

  // ----- what happens to the tags -----

  predicate NoClash(f: Word -> Word, s: seq<Word>) {
    forall i, j | 0 <= i < j < |s| :: f(s[i]) != f(s[j])
  }

  function Filtered(s: seq<Word>, references: set<nat>): seq<Word> {
    if s == [] then []
    else (if SplitForeign(s[0]).1 in references then [s[0]] else []) + Filtered(s[1..], references)
  }

  lemma {:induction false} TagsOfKept(items: seq<Item>, references: set<nat>)
    ensures TagsOf(Kept(items, references)) == Filtered(TagsOf(items), references)
  {
    if items != [] {
      TagsOfKept(items[1..], references);
      TagsOfConcat(if Keeps(items[0], references) then [items[0]] else [], Kept(items[1..], references));
      TagsOfConcat([items[0]], items[1..]);
      assert items == [items[0]] + items[1..];
      TagsOfOne(items[0]);
      var rest := TagsOf(items[1..]);
      if items[0].Tag? {
        assert ([items[0].data] + rest)[1..] == rest;
      } else {
        assert [] + rest == rest;
      }
    }
  }

  lemma TagsOfOne(item: Item)
    ensures TagsOf([item]) == if item.Tag? then [item.data] else []
    ensures TagsOf([]) == []
  {
    assert [item][1..] == [];
  }

  lemma {:induction false} FilteredNoClash(f: Word -> Word, s: seq<Word>, references: set<nat>)
    requires NoClash(f, s)
    ensures NoClash(f, Filtered(s, references))
    ensures forall x :: x in Filtered(s, references) <==> x in s && SplitForeign(x).1 in references
  {
    if s != [] {
      var rest := Filtered(s[1..], references);
      FilteredNoClash(f, s[1..], references);
      assert s == [s[0]] + s[1..];
      forall i | 0 <= i < |rest|
        ensures f(s[0]) != f(rest[i])
      {
        assert rest[i] in s[1..];
      }
    }
  }

  lemma {:induction false} UniqueIsNoClash(items: seq<Item>)
    ensures UniqueTags(items) <==> NoClash(x => x, TagsOf(items))
    ensures forall t: Word :: t in TagsOf(items) <==> Tag(t) in items
  {
    if items != [] {
      var rest := items[1..];
      UniqueIsNoClash(rest);
      assert items == [items[0]] + rest;
      var tags := TagsOf(rest);
      if items[0].Tag? {
        assert TagsOf(items) == [items[0].data] + tags;
        FirstUnique(items);
        FirstNoClash(items[0].data, tags);
      } else {
        assert TagsOf(items) == tags;
        FirstUnique(items);
      }
    }
  }

  lemma FirstUnique(items: seq<Item>)
    requires items != []
    ensures UniqueTags(items) <==> UniqueTags(items[1..]) && (items[0].Tag? ==> items[0] !in items[1..])
  {
    var rest := items[1..];
    assert forall i | 1 <= i < |items| :: items[i] == rest[i - 1];
    if UniqueTags(items) {
      forall i, j | 0 <= i < j < |rest| && rest[i].Tag? && rest[j].Tag?
        ensures rest[i].data != rest[j].data
      {
        assert items[i + 1] == rest[i] && items[j + 1] == rest[j];
      }
      forall i | 0 <= i < |rest| && items[0].Tag?
        ensures rest[i] != items[0]
      {
        assert items[i + 1] == rest[i];
      }
    } else {
      var i, j :| 0 <= i < j < |items| && items[i].Tag? && items[j].Tag? && items[i].data == items[j].data;
      assert items[j] == rest[j - 1];
      if i > 0 {
        assert items[i] == rest[i - 1];
      }
    }
  }

  lemma FirstNoClash(t: Word, tags: seq<Word>)
    ensures NoClash(x => x, [t] + tags) <==> NoClash(x => x, tags) && t !in tags
  {
    var all := [t] + tags;
    if NoClash(x => x, all) {
      forall i, j | 0 <= i < j < |tags|
        ensures tags[i] != tags[j]
      {
        assert all[i + 1] == tags[i] && all[j + 1] == tags[j];
      }
      forall i | 0 <= i < |tags|
        ensures tags[i] != t
      {
        assert all[i + 1] == tags[i] && all[0] == t;
      }
    }
  }

  /** The removal of jump destinations leaves the tags unique and their addresses different. */
  lemma KeptTags(items: seq<Item>, references: set<nat>)
    requires UniqueTags(items) && WellTagged(items)
    ensures UniqueTags(Kept(items, references)) && WellTagged(Kept(items, references))
    ensures forall env | DistinctTags(env, items) :: DistinctTags(env, Kept(items, references))
    ensures forall t: Word :: t in TagsOf(Kept(items, references)) <==> t in TagsOf(items) && SplitForeign(t).1 in references
  {
    hide SplitForeign, TagFits;
    TagsOfKept(items, references);
    UniqueIsNoClash(items);
    UniqueIsNoClash(Kept(items, references));
    FilteredNoClash(x => x, TagsOf(items), references);
    KeptMembers(items, references);
    forall env | DistinctTags(env, items)
      ensures DistinctTags(env, Kept(items, references))
    {
      FilteredNoClash(env.address, TagsOf(items), references);
    }
  }

  lemma {:induction false} KeptMembers(items: seq<Item>, references: set<nat>)
    ensures forall x | x in Kept(items, references) :: x in items
  {
    if items != [] {
      KeptMembers(items[1..], references);
    }
  }

  lemma StableTags(before: seq<Item>, after: seq<Item>)
    requires UniqueTags(before) && WellTagged(before) && NothingMadeUp(before, after) && TagsOf(after) == TagsOf(before)
    ensures UniqueTags(after) && WellTagged(after)
  {
    hide TagFits;
    UniqueIsNoClash(before);
    UniqueIsNoClash(after);
    forall i | 0 <= i < |after|
      ensures TagFits(after[i])
    {
      if after[i].Tag? || after[i].PushTag? {
        assert after[i] in before;
      } else {
        PlainFits(after[i]);
      }
    }
  }

  lemma PlainFits(item: Item)
    requires !item.Tag? && !item.PushTag?
    ensures TagFits(item)
  {
  }

  // ----- behaviour of a round -----

  /** The program that is left when unreferenced jump destinations are gone. */
  function Referenced(items: seq<Item>, outside: set<nat>, settings: Settings): seq<Item> {
    if settings.runJumpdestRemover then Kept(items, ReferencedTags(items, None) + outside) else items
  }

  /** The run enters a tag exactly if it is pushed by the program or referenced from outside. */
  ghost predicate EntersReferenced(env: Env, items: seq<Item>, outside: set<nat>, settings: Settings) {
    forall t | t in TagsOf(items) :: env.entry(t) <==> t in TagsOf(Referenced(items, outside, settings))
  }

  ghost predicate Sane(env: Env, items: seq<Item>) {
    TagsFit(env) && AddressesFit(env) && DistinctTags(env, items)
  }

  /** Pushed tags are only moved, dropped and jumped to. */
  ghost predicate Tame(env: Env, prog: seq<Item>, stack: seq<Word>, w: World) {
    forall fuel: nat :: !RunLabels(env, prog, Flatten(prog), Nums(stack), w, fuel).Stranded?
  }

  /** Both programs end in the same outcomes, up to addresses of tags of the same name. */
  ghost predicate Alike(env: Env, k: Renaming, before: seq<Item>, after: seq<Item>, stack: seq<Word>, w: World) {
    && Safe(env, after, stack, w)
    && (forall o | Ends(env, before, stack, w, o) :: HasAlike(env, k, after, stack, w, o))
    && (forall o | Ends(env, after, stack, w, o) :: AlikeOf(env, k, before, stack, w, o))
  }

  ghost predicate HasAlike(env: Env, k: Renaming, after: seq<Item>, stack: seq<Word>, w: World, o: Outcome) {
    exists o' :: Ends(env, after, stack, w, o') && SameEnd(env, k, o, o')
  }

  ghost predicate AlikeOf(env: Env, k: Renaming, before: seq<Item>, stack: seq<Word>, w: World, o': Outcome) {
    exists o :: Ends(env, before, stack, w, o) && SameEnd(env, k, o, o')
  }

  lemma SameIsAlike(env: Env, k: Renaming, before: seq<Item>, after: seq<Item>, stack: seq<Word>, w: World)
    requires SameBehaviour(env, before, after) && Safe(env, before, stack, w)
    ensures Alike(env, k, before, after, stack, w)
  {
    hide Safe, Ends;
    forall o | Ends(env, before, stack, w, o)
      ensures SameEnd(env, k, o, o)
    {
    }
    forall o | Ends(env, after, stack, w, o)
      ensures AlikeOf(env, k, before, stack, w, o)
    {
      assert Ends(env, before, stack, w, o);
      assert SameEnd(env, k, o, o);
    }
  }

  lemma SameThenAlike(env: Env, k: Renaming, a: seq<Item>, b: seq<Item>, c: seq<Item>, stack: seq<Word>, w: World)
    requires SameBehaviour(env, a, b) && Safe(env, a, stack, w) && Alike(env, k, b, c, stack, w)
    ensures Alike(env, k, a, c, stack, w)
  {
    hide Safe, Ends, SameEnd;
    forall o | Ends(env, c, stack, w, o)
      ensures AlikeOf(env, k, a, stack, w, o)
    {
      assert AlikeOf(env, k, b, stack, w, o);
      var x :| Ends(env, b, stack, w, x) && SameEnd(env, k, x, o);
      assert Ends(env, a, stack, w, x);
    }
  }

  lemma AlikeThenSame(env: Env, k: Renaming, a: seq<Item>, b: seq<Item>, c: seq<Item>, stack: seq<Word>, w: World)
    requires Alike(env, k, a, b, stack, w) && SameBehaviour(env, b, c)
    ensures Alike(env, k, a, c, stack, w)
  {
    hide Safe, Ends, SameEnd;
    forall o | Ends(env, a, stack, w, o)
      ensures HasAlike(env, k, c, stack, w, o)
    {
      assert HasAlike(env, k, b, stack, w, o);
      var x :| Ends(env, b, stack, w, x) && SameEnd(env, k, o, x);
      assert Ends(env, c, stack, w, x);
    }
    forall o | Ends(env, c, stack, w, o)
      ensures AlikeOf(env, k, a, stack, w, o)
    {
      assert Ends(env, b, stack, w, o);
    }
  }

  /** Deduplication in terms of whole runs. */
  lemma DedupAlike(env: Env, k: Renaming, before: seq<Item>, after: seq<Item>, stack: seq<Word>, w: World)
    requires BehavesUpTo(k, before, after) && AllEntries(env, before) && DistinctTags(env, before)
    requires Safe(env, before, stack, w) && Tame(env, before, stack, w)
    ensures Alike(env, k, before, after, stack, w)
  {
    hide Run, RunLabels, Flatten, DistinctTags, AllEntries, Nums, SameWord;
    forall fuel: nat
      ensures SameEnd(env, k, Run(env, before, before, stack, w, fuel), Run(env, after, after, stack, w, fuel))
    {
      assert !RunLabels(env, before, Flatten(before), Nums(stack), w, fuel).Stranded?;
    }
    forall o | Ends(env, before, stack, w, o)
      ensures HasAlike(env, k, after, stack, w, o)
    {
      var fuel: nat :| Run(env, before, before, stack, w, fuel) == o;
      assert Ends(env, after, stack, w, Run(env, after, after, stack, w, fuel));
    }
    forall o | Ends(env, after, stack, w, o)
      ensures AlikeOf(env, k, before, stack, w, o)
    {
      var fuel: nat :| Run(env, after, after, stack, w, fuel) == o;
      assert Ends(env, before, stack, w, Run(env, before, before, stack, w, fuel));
    }
  }

  // ----- charges -----

  /** Both programs end in the same outcomes, up to addresses of tags of the same name, and the
      second one may have been charged less often. */
  ghost predicate AlikeUpToCharges(env: Env, k: Renaming, charge: int -> int, before: seq<Item>, after: seq<Item>, stack: seq<Word>, w: World) {
    && Safe(env, after, stack, w)
    && (forall o | Ends(env, before, stack, w, o) :: HasUncharged(env, k, charge, after, stack, w, o))
    && (forall o | Ends(env, after, stack, w, o) :: ChargedOf(env, k, charge, before, stack, w, o))
  }

  ghost predicate HasUncharged(env: Env, k: Renaming, charge: int -> int, after: seq<Item>, stack: seq<Word>, w: World, o: Outcome) {
    exists n: nat, o' :: Ends(env, after, stack, w, o') && SameEnd(env, k, o, ChargedOutcome(charge, n, o'))
  }

  ghost predicate ChargedOf(env: Env, k: Renaming, charge: int -> int, before: seq<Item>, stack: seq<Word>, w: World, o': Outcome) {
    exists n: nat, o :: Ends(env, before, stack, w, o) && SameEnd(env, k, o, ChargedOutcome(charge, n, o'))
  }

  lemma AlikeThenCharges(env: Env, k: Renaming, charge: int -> int, a: seq<Item>, b: seq<Item>, c: seq<Item>, stack: seq<Word>, w: World)
    requires Alike(env, k, a, b, stack, w) && SameUpToCharges(env, charge, b, c)
    ensures AlikeUpToCharges(env, k, charge, a, c, stack, w)
  {
    hide Safe, Ends, SameEnd, ChargedOutcome, HasAlike, EndsUncharged, AlikeOf, EndsCharged, HasUncharged, ChargedOf;
    forall o | Ends(env, a, stack, w, o)
      ensures HasUncharged(env, k, charge, c, stack, w, o)
    {
      assert HasAlike(env, k, b, stack, w, o);
      ThenUncharged(env, k, charge, b, c, stack, w, o);
    }
    forall o | Ends(env, c, stack, w, o)
      ensures ChargedOf(env, k, charge, a, stack, w, o)
    {
      assert EndsCharged(env, charge, b, stack, w, o);
      ChargedBefore(env, k, charge, a, b, stack, w, o);
    }
  }

  lemma ThenUncharged(env: Env, k: Renaming, charge: int -> int, b: seq<Item>, c: seq<Item>, stack: seq<Word>, w: World, o: Outcome)
    requires HasAlike(env, k, b, stack, w, o)
    requires forall x | Ends(env, b, stack, w, x) :: EndsUncharged(env, charge, c, stack, w, x)
    ensures HasUncharged(env, k, charge, c, stack, w, o)
  {
    hide Ends, SameEnd, ChargedOutcome;
    var x :| Ends(env, b, stack, w, x) && SameEnd(env, k, o, x);
    assert EndsUncharged(env, charge, c, stack, w, x);
    var n: nat, y :| Ends(env, c, stack, w, y) && x == ChargedOutcome(charge, n, y);
    assert SameEnd(env, k, o, ChargedOutcome(charge, n, y));
  }

  lemma ChargedBefore(env: Env, k: Renaming, charge: int -> int, a: seq<Item>, b: seq<Item>, stack: seq<Word>, w: World, o: Outcome)
    requires EndsCharged(env, charge, b, stack, w, o)
    requires forall x | Ends(env, b, stack, w, x) :: AlikeOf(env, k, a, stack, w, x)
    ensures ChargedOf(env, k, charge, a, stack, w, o)
  {
    hide Ends, SameEnd, ChargedOutcome;
    var n: nat :| Ends(env, b, stack, w, ChargedOutcome(charge, n, o));
    assert AlikeOf(env, k, a, stack, w, ChargedOutcome(charge, n, o));
    var x :| Ends(env, a, stack, w, x) && SameEnd(env, k, x, ChargedOutcome(charge, n, o));
    assert Ends(env, a, stack, w, x);
  }

  lemma ClearedOfCharges(items: seq<Item>, kept: seq<Item>, current: seq<Item>)
    requires NoFreeGas(items) && (forall x | x in kept :: x in items) && (NothingMadeUp(kept, current) || current == kept)
    ensures NoFreeGas(current)
  {
    assert CHARGE !in items;
    assert CHARGE !in kept;
    assert CHARGE !in current;
  }

  lemma RenamedCharges(k: Renaming, before: seq<Item>, after: seq<Item>)
    requires SameUpTo(k, before, after) && NoFreeGas(before)
    ensures NoFreeGas(after)
  {
    forall i | 0 <= i < |after|
      ensures after[i] != CHARGE
    {
      assert Renamed(k, before[i]) == Renamed(k, after[i]);
    }
  }

  // ----- a round -----

  /** The first program is shorter; or as long, and the peephole optimiser or the deduplicator has
      less to do there. */
  ghost predicate Lighter(after: seq<Item>, before: seq<Item>) {
    || |after| < |before|
    || (|after| == |before| && Peephole.Weight(after) < Peephole.Weight(before))
    || (|after| == |before| && Peephole.Weight(after) == Peephole.Weight(before)
        && Deduplication.Weight(after, after) < Deduplication.Weight(before, before))
  }

  lemma {:induction false} SamePeepholeWeight(k: Renaming, s: seq<Item>, t: seq<Item>)
    requires SameUpTo(k, s, t)
    ensures Peephole.Weight(s) == Peephole.Weight(t)
  {
    if s != [] {
      assert Renamed(k, s[0]) == Renamed(k, t[0]);
      SuffixSame(k, s, t, 1);
      SamePeepholeWeight(k, s[1..], t[1..]);
    }
  }

  predicate Unremovable(items: seq<Item>, outside: set<nat>, settings: Settings) {
    settings.runJumpdestRemover ==> Kept(items, ReferencedTags(items, None) + outside) == items
  }

  ghost predicate Stable(items: seq<Item>, settings: Settings) {
    settings.runPeephole ==> !Gain(items, Pass(items))
  }

  lemma {:induction false} KeptShorter(items: seq<Item>, references: set<nat>)
    ensures |Kept(items, references)| <= |items|
    ensures Kept(items, references) != items ==> |Kept(items, references)| < |items|
  {
    if items != [] {
      KeptShorter(items[1..], references);
      assert items == [items[0]] + items[1..];
    }
  }

  /** The passes before deduplication: they keep the behaviour as it is. */
  method RemoveAndRewrite(items: seq<Item>, outside: set<nat>, settings: Settings) returns (r: Result<seq<Item>>, changed: bool)
    requires UniqueTags(items) && WellTagged(items)
    ensures r.Success? && changed ==> |r.value| < |items| || (|r.value| == |items| && Peephole.Weight(r.value) < Peephole.Weight(items))
    ensures r.Success? && !changed ==> r.value == items && Unremovable(items, outside, settings) && Stable(items, settings)
    ensures r.Failure? <==> settings.runJumpdestRemover && !OnlyLocalTags(items)
    ensures r.Success? ==> UniqueTags(r.value) && WellTagged(r.value) && TagsOf(r.value) == TagsOf(Referenced(items, outside, settings))
    ensures r.Success? && NoFreeGas(items) ==> NoFreeGas(r.value)
    ensures r.Success? ==> forall env | Sane(env, items) && EntersReferenced(env, items, outside, settings) ::
              SameBehaviour(env, items, r.value) && DistinctTags(env, r.value) && AllEntries(env, r.value)
  {
    hide SameBehaviour, DistinctTags, AddressesFit, TagsFit, Kept, TagsOf, WellTagged, UniqueTags, NothingMadeUp, AllEntries, OnlyLocalTags, ReferencedTags;
    var current := items;
    changed := false;
    if settings.runJumpdestRemover {
      var remover := new JumpdestRemover(items);
      var removed := remover.Optimise(outside);
      if removed.None? {
        return Failure(OptimizerFailure), false;
      }
      changed := removed.value;
      current := remover.items;
      KeptShorter(items, ReferencedTags(items, None) + outside);
      KeptTags(items, ReferencedTags(items, None) + outside);
      KeptMembers(items, ReferencedTags(items, None) + outside);
    }
    ghost var kept := current;
    assert kept == Referenced(items, outside, settings);
    if settings.runPeephole {
      var rounds;
      current, rounds := OptimiseUntilStable(current);
      changed := changed || rounds > 0;
      StableTags(kept, current);
    }
    r := Success(current);
    if NoFreeGas(items) {
      ClearedOfCharges(items, kept, current);
    }
    forall env | Sane(env, items) && EntersReferenced(env, items, outside, settings)
      ensures SameBehaviour(env, items, current) && DistinctTags(env, current) && AllEntries(env, current)
    {
      RemovalSame(env, items, outside, settings);
      if settings.runPeephole {
        SameBehaviourTransitive(env, items, kept, current);
      }
      EnteredTags(env, items, outside, settings, current);
    }
  }

  lemma RemovalSame(env: Env, items: seq<Item>, outside: set<nat>, settings: Settings)
    requires UniqueTags(items) && WellTagged(items) && Sane(env, items) && EntersReferenced(env, items, outside, settings)
    ensures SameBehaviour(env, items, Referenced(items, outside, settings)) && DistinctTags(env, Referenced(items, outside, settings))
  {
    hide SameBehaviour, DistinctTags, AddressesFit, TagsFit, Kept, TagsOf, WellTagged, UniqueTags, SplitForeign, ReferencedTags;
    if settings.runJumpdestRemover {
      var references := ReferencedTags(items, None) + outside;
      KeptTags(items, references);
      RemovalCorrect(env, items, references);
    } else {
      SameBehaviourReflexive(env, items);
    }
  }

  lemma EnteredTags(env: Env, items: seq<Item>, outside: set<nat>, settings: Settings, current: seq<Item>)
    requires UniqueTags(items) && WellTagged(items) && EntersReferenced(env, items, outside, settings)
    requires TagsOf(current) == TagsOf(Referenced(items, outside, settings))
    ensures AllEntries(env, current)
  {
    hide Kept, TagsOf, WellTagged, UniqueTags, SplitForeign, ReferencedTags;
    UniqueIsNoClash(current);
    if settings.runJumpdestRemover {
      KeptTags(items, ReferencedTags(items, None) + outside);
    }
    forall i | 0 <= i < |current| && current[i].Tag?
      ensures env.entry(current[i].data)
    {
      assert Tag(current[i].data) in current;
    }
  }

  /** What a round promises. `middle` is the program that the deduplicator gets; k identifies tags in
      front of equal blocks. */
  ghost predicate RoundCorrect(items: seq<Item>, middle: seq<Item>, result: seq<Item>, k: Renaming, outside: set<nat>, settings: Settings) {
    forall env, stack, w
      | Sane(env, items) && EntersReferenced(env, items, outside, settings) && Safe(env, items, stack, w)
        && (settings.runDeduplicate ==> Tame(env, middle, stack, w)) ::
      Alike(env, k, items, result, stack, w)
  }

  /** What a round promises about programs with FREEGAS, in environments where nothing but the balance
      shows a charge. */
  ghost predicate RoundCharged(items: seq<Item>, middle: seq<Item>, result: seq<Item>, k: Renaming, outside: set<nat>, settings: Settings) {
    forall env, charge, stack, w
      | Sane(env, items) && EntersReferenced(env, items, outside, settings) && Safe(env, items, stack, w)
        && (settings.runDeduplicate ==> Tame(env, middle, stack, w)) && Unnoticed(env, charge) ::
      AlikeUpToCharges(env, k, charge, items, result, stack, w)
  }

  /** The part of the round before common subexpression elimination. */
  lemma UnifiedHolds(items: seq<Item>, middle: seq<Item>, unified: seq<Item>, k: Renaming, outside: set<nat>, settings: Settings)
    requires forall env | Sane(env, items) && EntersReferenced(env, items, outside, settings) ::
               SameBehaviour(env, items, middle) && DistinctTags(env, middle) && AllEntries(env, middle)
    requires if settings.runDeduplicate then BehavesUpTo(k, middle, unified) else unified == middle
    ensures RoundCorrect(items, middle, unified, k, outside, settings)
  {
    hide SameBehaviour, Safe, Ends, EntersReferenced, AllEntries, BehavesUpTo, DistinctTags, Sane, SameEnd, Tame, Alike;
    forall env, stack, w
      | Sane(env, items) && EntersReferenced(env, items, outside, settings) && Safe(env, items, stack, w)
        && (settings.runDeduplicate ==> Tame(env, middle, stack, w))
      ensures Alike(env, k, items, unified, stack, w)
    {
      SafeStays(env, items, middle, stack, w);
      SameBehaviourReflexive(env, middle);
      if settings.runDeduplicate {
        DedupAlike(env, k, middle, unified, stack, w);
      } else {
        SameIsAlike(env, k, middle, unified, stack, w);
      }
      SameThenAlike(env, k, items, middle, unified, stack, w);
    }
  }

  /** Common subexpression elimination at the end of the round loses nothing but charges. */
  lemma RoundHolds(items: seq<Item>, middle: seq<Item>, unified: seq<Item>, result: seq<Item>, k: Renaming, outside: set<nat>, settings: Settings)
    requires RoundCorrect(items, middle, unified, k, outside, settings)
    requires forall env | Sane(env, items) && EntersReferenced(env, items, outside, settings) :: DistinctTags(env, unified)
    requires LosesCharges(unified, result)
    ensures NoFreeGas(unified) ==> RoundCorrect(items, middle, result, k, outside, settings)
    ensures RoundCharged(items, middle, result, k, outside, settings)
  {
    hide Safe, EntersReferenced, DistinctTags, AddressesFit, TagsFit, Tame, Alike, AlikeUpToCharges, LosesCharges, Unnoticed, SameUpToCharges, SameBehaviour;
    forall env, stack, w
      | Sane(env, items) && EntersReferenced(env, items, outside, settings) && Safe(env, items, stack, w)
        && (settings.runDeduplicate ==> Tame(env, middle, stack, w)) && NoFreeGas(unified)
      ensures Alike(env, k, items, result, stack, w)
    {
      NoChargeToLose(unified, result);
      AlikeThenSame(env, k, items, unified, result, stack, w);
    }
    forall env, charge, stack, w
      | Sane(env, items) && EntersReferenced(env, items, outside, settings) && Safe(env, items, stack, w)
        && (settings.runDeduplicate ==> Tame(env, middle, stack, w)) && Unnoticed(env, charge)
      ensures AlikeUpToCharges(env, k, charge, items, result, stack, w)
    {
      ChargesAside(env, charge, unified, result);
      AlikeThenCharges(env, k, charge, items, unified, result, stack, w);
    }
  }

  lemma SafeStays(env: Env, before: seq<Item>, after: seq<Item>, stack: seq<Word>, w: World)
    requires SameBehaviour(env, before, after) && Safe(env, before, stack, w)
    ensures Safe(env, after, stack, w)
  {
    hide Safe, Ends;
  }

  /** One round over all passes: for runs that enter only tags that are pushed or referenced from
      outside, the result behaves like the program, up to addresses of tags in front of equal blocks.
      With common subexpression elimination that takes a program without FREEGAS; for all others the
      result may be charged less often. A round that changes something makes the program lighter. */
  method OptimiseRound(items: seq<Item>, outside: set<nat>, settings: Settings)
    returns (r: Result<seq<Item>>, changed: bool, ghost middle: seq<Item>, ghost k: Renaming)
    requires UniqueTags(items) && WellTagged(items)
    ensures r.Success? && (settings.runCSE ==> NoFreeGas(items)) ==> RoundCorrect(items, middle, r.value, k, outside, settings)
    ensures r.Success? ==> RoundCharged(items, middle, r.value, k, outside, settings)
    ensures !settings.runDeduplicate ==> forall t :: k(t) == t
    ensures r.Success? ==> UniqueTags(r.value) && WellTagged(r.value) && TagsOf(r.value) == TagsOf(Referenced(items, outside, settings))
    ensures r.Success? && NoFreeGas(items) ==> NoFreeGas(r.value)
    ensures r.Success? ==> if changed then Lighter(r.value, items) else r.value == items && Settled(items, outside, settings)
    ensures settings.runJumpdestRemover && !OnlyLocalTags(items) ==> r.Failure?
    ensures r.Failure? && (settings.runJumpdestRemover ==> OnlyLocalTags(items)) ==> settings.runCSE && r.error == Overflow && TooLong(items)
  {
    hide SameBehaviour, DistinctTags, Sane, EntersReferenced, UniqueTags, WellTagged, RoundCorrect, RoundCharged, BehavesUpTo, BehavesAs, LosesCharges, TagsOf, Congruent, SameUpTo, SameTags, Deduplicated, AllEntries, OnlyLocalTags, Referenced, NoFreeGas, Unremovable, Stable, Peephole.Weight, Deduplication.Weight, NothingMadeUp, Eliminated;
    middle, k := items, t => t;
    var rewritten;
    rewritten, changed := RemoveAndRewrite(items, outside, settings);
    if rewritten.Failure? {
      return Failure(rewritten.error), changed, middle, k;
    }
    var current := rewritten.value;
    middle := current;
    if settings.runDeduplicate {
      var dedup := new BlockDeduplicator(current);
      var replaced;
      replaced, k := dedup.Deduplicate();
      current := dedup.items;
      changed := changed || replaced;
      TagsOfSame(k, middle, current);
      SamePeepholeWeight(k, middle, current);
      SameLength(k, middle, current);
      SameTagsFacts(middle, current, current);
      if NoFreeGas(middle) {
        RenamedCharges(k, middle, current);
      }
    }
    ghost var unified := current;
    if settings.runCSE {
      var optimised :- EliminateSubexpressions(current);
      changed := changed || |optimised| < |current|;
      current := optimised;
      StableTags(unified, current);
      if NoFreeGas(unified) {
        ClearedOfCharges(unified, unified, current);
      }
    } else {
      NothingLost(unified);
    }
    r := Success(current);
    UnifiedHolds(items, middle, unified, k, outside, settings);
    StillDistinct(items, middle, unified, outside, settings);
    RoundHolds(items, middle, unified, current, k, outside, settings);
  }

  lemma SameLength(k: Renaming, s: seq<Item>, t: seq<Item>)
    requires SameUpTo(k, s, t)
    ensures |s| == |t|
  {
  }

  /** No pass finds anything to do. */
  ghost predicate Settled(items: seq<Item>, outside: set<nat>, settings: Settings) {
    && Unremovable(items, outside, settings) && Stable(items, settings)
    && (settings.runDeduplicate && Tag(SELF) !in items && PushTag(SELF) !in items ==> Deduplicated(items))
    && (settings.runCSE ==> Eliminated(items, items))
  }

  lemma NothingLost(items: seq<Item>)
    ensures LosesCharges(items, items)
  {
    hide BehavesAs;
    ShedsSelf(items);
    AllBehaveSelf(items);
  }

  lemma StillDistinct(items: seq<Item>, middle: seq<Item>, unified: seq<Item>, outside: set<nat>, settings: Settings)
    requires forall env | Sane(env, items) && EntersReferenced(env, items, outside, settings) :: DistinctTags(env, middle)
    requires TagsOf(unified) == TagsOf(middle)
    ensures forall env | Sane(env, items) && EntersReferenced(env, items, outside, settings) :: DistinctTags(env, unified)
  {
    hide Sane, EntersReferenced;
  }
}
