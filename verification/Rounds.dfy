/** The rounds of the optimiser are repeated until none of the passes changes anything
    (libevmasm/Assembly.cpp:405-488). */
module Repeating {
  import opened Wrappers
  import opened Words
  import opened Instructions
  import opened Items
  import opened Machine
  import opened Rewriting
  import opened Peephole
  import opened JumpdestRemoval
  import opened Blocks
  import opened Labels
  import Deduplication
  import opened Classes
  import opened FreeGas
  import opened CsePass
  import opened Optimising

  /** One round: what it starts with, what the deduplicator gets, what comes out, and the tags that are identified. */
  datatype Round = Round(items: seq<Item>, middle: seq<Item>, result: seq<Item>, k: Renaming)

  /** Every round continues with the result of the one before. */
  predicate Connected(rs: seq<Round>, items: seq<Item>, result: seq<Item>) {
    if rs == [] then items == result else rs[0].items == items && Connected(rs[1..], rs[0].result, result)
  }

  /** A correct round; without FREEGAS (or without common subexpression elimination) nothing is lost. */
  ghost predicate RoundOk(r: Round, outside: set<nat>, settings: Settings) {
    && Deduplication.WellTagged(r.items) && UniqueTags(r.items)
    && TagsOf(r.result) == TagsOf(Referenced(r.items, outside, settings))
    && RoundCharged(r.items, r.middle, r.result, r.k, outside, settings)
    && (Lossless(r.items, settings) ==>
          RoundCorrect(r.items, r.middle, r.result, r.k, outside, settings) && Lossless(r.result, settings))
  }

  ghost predicate AllRoundsOk(rs: seq<Round>, outside: set<nat>, settings: Settings) {
    forall i | 0 <= i < |rs| :: RoundOk(rs[i], outside, settings)
  }

  predicate Lossless(items: seq<Item>, settings: Settings) {
    settings.runCSE ==> NoFreeGas(items)
  }

  lemma {:induction false} ConnectedAppend(rs: seq<Round>, items: seq<Item>, r: Round)
    requires Connected(rs, items, r.items)
    ensures Connected(rs + [r], items, r.result)
  {
    if rs == [] {
      assert rs + [r] == [r] && [r][1..] == [];
    } else {
      assert (rs + [r])[0] == rs[0] && (rs + [r])[1..] == rs[1..] + [r];
      ConnectedAppend(rs[1..], rs[0].result, r);
    }
  }

  /** Repeats the rounds until none of them changes anything. That always comes to an end: every
      other round makes the program shorter, or lighter for the peephole optimiser, or pushes earlier
      tags. */
  method Optimise(items: seq<Item>, outside: set<nat>, settings: Settings) returns (r: Result<seq<Item>>, ghost rounds: seq<Round>)
    requires UniqueTags(items) && Deduplication.WellTagged(items)
    ensures r.Success? ==> rounds != [] && Connected(rounds, items, r.value) && AllRoundsOk(rounds, outside, settings)
    ensures r.Success? ==> |r.value| <= |items| && Settled(r.value, outside, settings)
    ensures r.Failure? ==> settings.runCSE && r.error == Overflow && TooLong(items)
  {
    hide UniqueTags, Deduplication.WellTagged, RoundCharged, RoundCorrect, Settled, OnlyLocalTags, TagsOf, Referenced;
    rounds := [];
    var current, changed := items, true;
    while changed
      invariant UniqueTags(current) && Deduplication.WellTagged(current)
      invariant Connected(rounds, items, current) && AllRoundsOk(rounds, outside, settings)
      invariant |current| <= |items| && (!changed ==> rounds != [] && Settled(current, outside, settings))
      decreases changed, |current|, Peephole.Weight(current), Deduplication.Weight(current, current)
    {
      var next;
      ghost var middle, k;
      TagsAreLocal(current);
      next, changed, middle, k := OptimiseRound(current, outside, settings);
      if next.Failure? {
        return next, rounds;
      }
      ghost var round := Round(current, middle, next.value, k);
      ConnectedAppend(rounds, items, round);
      rounds := rounds + [round];
      current := next.value;
    }
    r := Success(current);
  }

  lemma TagsAreLocal(items: seq<Item>)
    requires Deduplication.WellTagged(items)
    ensures OnlyLocalTags(items)
  {
    forall i | 0 <= i < |items| && items[i].Tag?
      ensures IsLocal(items[i].data)
    {
      assert Deduplication.TagFits(items[i]);
    }
  }

  // ----- runs that enter fewer tags -----

  ghost predicate Fewer(env: Env, env': Env) {
    env' == env.(entry := env'.entry) && forall t :: env'.entry(t) ==> env.entry(t)
  }

  lemma {:induction false} TargetTag(env: Env, prog: seq<Item>, dest: Word)
    ensures Target(env, prog, dest).Some? ==> exists i :: 0 <= i < |TagsOf(prog)| && env.address(TagsOf(prog)[i]) == dest
  {
    if prog != [] && Target(env, prog, dest).Some? {
      var tags := TagsOf(prog[1..]);
      if IsEntry(env, prog[0], dest) {
        assert TagsOf(prog)[0] == prog[0].data;
      } else {
        TargetTag(env, prog[1..], dest);
        var i :| 0 <= i < |tags| && env.address(tags[i]) == dest;
        assert TagsOf(prog)[if prog[0].Tag? then i + 1 else i] == tags[i];
      }
    }
  }

  lemma {:induction false} TargetFewer(env: Env, env': Env, prog: seq<Item>, dest: Word)
    requires Fewer(env, env') && DistinctTags(env, prog) && Target(env', prog, dest).Some?
    ensures Target(env, prog, dest) == Target(env', prog, dest)
  {
    if prog != [] && !IsEntry(env', prog[0], dest) {
      var tags := TagsOf(prog[1..]);
      TargetTag(env', prog[1..], dest);
      var i :| 0 <= i < |tags| && env'.address(tags[i]) == dest;
      if prog[0].Tag? {
        assert TagsOf(prog)[0] == prog[0].data && TagsOf(prog)[i + 1] == tags[i];
      }
      DistinctRest(env, prog);
      TargetFewer(env, env', prog[1..], dest);
    }
  }

  lemma DistinctRest(env: Env, prog: seq<Item>)
    requires prog != [] && DistinctTags(env, prog)
    ensures DistinctTags(env, prog[1..])
  {
    var all, tags := TagsOf(prog), TagsOf(prog[1..]);
    forall i, j | 0 <= i < j < |tags|
      ensures env.address(tags[i]) != env.address(tags[j])
    {
      var d := if prog[0].Tag? then 1 else 0;
      assert all[i + d] == tags[i] && all[j + d] == tags[j];
    }
  }

  lemma ExecFewer(env: Env, env': Env, item: Item, stack: seq<Word>, w: World)
    requires Fewer(env, env')
    ensures ExecItem(env', item, stack, w) == ExecItem(env, item, stack, w)
  {
    hide ReadBytes, Load, Store, Arithmetic, ArgCount, RetCount, HasSideEffects, IsValidInstruction, SwapTop, Args, Drop;
  }

  /** A run that enters fewer tags and does not get stuck is the run that may enter more. */
  lemma {:induction false} RunFewer(env: Env, env': Env, prog: seq<Item>, rest: seq<Item>, stack: seq<Word>, w: World, fuel: nat)
    requires Fewer(env, env') && DistinctTags(env, prog) && Run(env', prog, rest, stack, w, fuel) != Stuck
    ensures Run(env, prog, rest, stack, w, fuel) == Run(env', prog, rest, stack, w, fuel)
    decreases fuel, |rest|
  {
    hide ExecItem, Fewer, DistinctTags, Target;
    if rest != [] {
      ExecFewer(env, env', rest[0], stack, w);
      match ExecItem(env', rest[0], stack, w)
      case Next(s, w') => RunFewer(env, env', prog, rest[1..], s, w', fuel);
      case Jump(dest, s, w') =>
        if Target(env', prog, dest).Some? {
          TargetFewer(env, env', prog, dest);
          if fuel > 0 {
            RunFewer(env, env', prog, Target(env', prog, dest).value, s, w', fuel - 1);
          }
        }
      case _ =>
    }
  }

  lemma EndsFewer(env: Env, env': Env, prog: seq<Item>, stack: seq<Word>, w: World)
    requires Fewer(env, env') && DistinctTags(env, prog) && Safe(env', prog, stack, w)
    ensures forall o :: Ends(env, prog, stack, w, o) <==> Ends(env', prog, stack, w, o)
  {
    hide Run, Fewer, DistinctTags;
    forall fuel: nat
      ensures Run(env, prog, prog, stack, w, fuel) == Run(env', prog, prog, stack, w, fuel)
    {
      assert Run(env', prog, prog, stack, w, fuel) != Stuck;
      RunFewer(env, env', prog, prog, stack, w, fuel);
    }
  }

  // ----- all rounds together -----

  /** The run enters the tags that are pushed by the program or referenced from outside. */
  ghost function Entering(env: Env, items: seq<Item>, outside: set<nat>, settings: Settings): Env {
    env.(entry := t => t in TagsOf(Referenced(items, outside, settings)))
  }

  /** What is asked of the runs at the start of a round: they enter no other tags, and the
      deduplicator needs that pushed tags are only moved, dropped and jumped to. */
  ghost predicate RunsWell(env: Env, r: Round, outside: set<nat>, settings: Settings, stack: seq<Word>, w: World) {
    var entering := Entering(env, r.items, outside, settings);
    Safe(entering, r.items, stack, w) && (settings.runDeduplicate ==> Tame(entering, r.middle, stack, w))
  }

  /** Outcomes that are linked by all rounds: in every round the addresses of identified tags may be
      exchanged, and charges may get lost. */
  ghost predicate Linked(env: Env, charge: int -> int, rs: seq<Round>, o: Outcome, o': Outcome) {
    if rs == [] then o == o'
    else exists m, n: nat :: SameEnd(env, rs[0].k, o, ChargedOutcome(charge, n, m)) && Linked(env, charge, rs[1..], m, o')
  }

  ghost predicate Changeless(charge: int -> int) {
    forall x :: charge(x) == x
  }

  /** Charges do not show; or there is nothing that charges. */
  ghost predicate Charging(env: Env, charge: int -> int, items: seq<Item>, settings: Settings) {
    Unnoticed(env, charge) || (Changeless(charge) && Lossless(items, settings))
  }

  lemma {:induction false} NothingCharged(charge: int -> int, n: nat, o: Outcome)
    requires Changeless(charge)
    ensures ChargedOutcome(charge, n, o) == o
  {
    if o.Done? {
      NothingIterated(charge, n, o.world.outside);
    }
  }

  lemma {:induction false} NothingIterated(charge: int -> int, n: nat, x: int)
    requires Changeless(charge)
    ensures Iterated(charge, n, x) == x
  {
    if n > 0 {
      NothingIterated(charge, n - 1, x);
    }
  }

  lemma AlikeIsCharged(env: Env, k: Renaming, charge: int -> int, before: seq<Item>, after: seq<Item>, stack: seq<Word>, w: World)
    requires Alike(env, k, before, after, stack, w) && Changeless(charge)
    ensures AlikeUpToCharges(env, k, charge, before, after, stack, w)
  {
    hide Safe, Ends, SameEnd, ChargedOutcome, Changeless;
    forall o | Ends(env, before, stack, w, o)
      ensures HasUncharged(env, k, charge, after, stack, w, o)
    {
      assert HasAlike(env, k, after, stack, w, o);
      var m :| Ends(env, after, stack, w, m) && SameEnd(env, k, o, m);
      NothingCharged(charge, 0, m);
      assert SameEnd(env, k, o, ChargedOutcome(charge, 0, m));
    }
    forall o | Ends(env, after, stack, w, o)
      ensures ChargedOf(env, k, charge, before, stack, w, o)
    {
      assert AlikeOf(env, k, before, stack, w, o);
      var m :| Ends(env, before, stack, w, m) && SameEnd(env, k, m, o);
      NothingCharged(charge, 0, o);
      assert SameEnd(env, k, m, ChargedOutcome(charge, 0, o));
    }
  }

  /** The environment of the last round. */
  ghost function LastEntering(env: Env, rs: seq<Round>, outside: set<nat>, settings: Settings): Env
    requires rs != []
  {
    Entering(env, rs[|rs| - 1].items, outside, settings)
  }

  ghost predicate Finishes(env: Env, charge: int -> int, rs: seq<Round>, last: Env, result: seq<Item>, stack: seq<Word>, w: World, o: Outcome) {
    exists o' :: Ends(last, result, stack, w, o') && Linked(env, charge, rs, o, o')
  }

  ghost predicate Started(env: Env, charge: int -> int, rs: seq<Round>, first: Env, items: seq<Item>, stack: seq<Word>, w: World, o': Outcome) {
    exists o :: Ends(first, items, stack, w, o) && Linked(env, charge, rs, o, o')
  }

  /** All rounds together keep the behaviour: if no run enters a tag that is no longer referenced,
      the outcomes of the program before the first round and after the last one are linked, in both
      directions. */
  lemma {:induction false} RoundsCorrect(env: Env, charge: int -> int, rs: seq<Round>, items: seq<Item>, result: seq<Item>,
                                         outside: set<nat>, settings: Settings, stack: seq<Word>, w: World)
    requires rs != [] && Connected(rs, items, result) && AllRoundsOk(rs, outside, settings)
    requires Sane(env, items) && Charging(env, charge, items, settings)
    requires forall i | 0 <= i < |rs| :: RunsWell(env, rs[i], outside, settings, stack, w)
    ensures var first, last := Entering(env, items, outside, settings), LastEntering(env, rs, outside, settings);
            && Safe(last, result, stack, w)
            && (forall o | Ends(first, items, stack, w, o) :: Finishes(env, charge, rs, last, result, stack, w, o))
            && (forall o' | Ends(last, result, stack, w, o') :: Started(env, charge, rs, first, items, stack, w, o'))
  {
    hide Safe, Ends, Sane, Charging, RoundOk, RunsWell, AlikeUpToCharges, Linked, Finishes, Started;
    var r, rest := rs[0], rs[1..];
    var first, last := Entering(env, items, outside, settings), LastEntering(env, rs, outside, settings);
    assert RoundOk(r, outside, settings) && RunsWell(env, r, outside, settings, stack, w);
    OneRound(env, charge, r, outside, settings, stack, w);
    if rest == [] {
      assert rs == [r];
      OneLinked(env, charge, r, first, stack, w);
    } else {
      assert forall i | 0 <= i < |rest| :: rest[i] == rs[i + 1];
      assert RunsWell(env, rest[0], outside, settings, stack, w);
      RoundsCorrect(env, charge, rest, r.result, result, outside, settings, stack, w);
      NextEntering(env, r, rest[0], outside, settings, stack, w);
      MoreLinked(env, charge, rs, first, Entering(env, r.result, outside, settings), last, result, stack, w);
    }
  }

  /** One round, in terms of the runs that enter what is referenced; the next round can follow. */
  lemma OneRound(env: Env, charge: int -> int, r: Round, outside: set<nat>, settings: Settings, stack: seq<Word>, w: World)
    requires RoundOk(r, outside, settings) && RunsWell(env, r, outside, settings, stack, w)
    requires Sane(env, r.items) && Charging(env, charge, r.items, settings)
    ensures AlikeUpToCharges(Entering(env, r.items, outside, settings), r.k, charge, r.items, r.result, stack, w)
    ensures Sane(env, r.result) && Charging(env, charge, r.result, settings)
  {
    hide Safe, Ends, Alike, AlikeUpToCharges, Tame, Unnoticed, Changeless, Referenced, TagsOf, TagsFit, AddressesFit, UniqueTags, Deduplication.WellTagged;
    var entering := Entering(env, r.items, outside, settings);
    EnteringFacts(env, charge, r.items, outside, settings);
    StillSane(env, r, outside, settings);
    if Unnoticed(env, charge) {
      assert Unnoticed(entering, charge);
    } else {
      assert Alike(entering, r.k, r.items, r.result, stack, w);
      AlikeIsCharged(entering, r.k, charge, r.items, r.result, stack, w);
    }
  }

  lemma EnteringFacts(env: Env, charge: int -> int, items: seq<Item>, outside: set<nat>, settings: Settings)
    requires Sane(env, items)
    ensures var entering := Entering(env, items, outside, settings);
            && Sane(entering, items) && EntersReferenced(entering, items, outside, settings)
            && (Unnoticed(env, charge) ==> Unnoticed(entering, charge))
  {
    hide Referenced, TagsOf;
    var entering := Entering(env, items, outside, settings);
    if Unnoticed(env, charge) {
      forall op, args, w | op != FREEGAS
        ensures SameEffect(entering, charge, op, args, w)
      {
        assert SameEffect(env, charge, op, args, w);
      }
    }
  }

  lemma StillSane(env: Env, r: Round, outside: set<nat>, settings: Settings)
    requires RoundOk(r, outside, settings) && Sane(env, r.items)
    ensures Sane(env, r.result)
  {
    hide RoundCharged, RoundCorrect, TagsOf, TagsFit, AddressesFit, UniqueTags, Deduplication.WellTagged, Kept, ReferencedTags;
    if settings.runJumpdestRemover {
      KeptTags(r.items, ReferencedTags(r.items, None) + outside);
    }
  }

  lemma OneLinked(env: Env, charge: int -> int, r: Round, entering: Env, stack: seq<Word>, w: World)
    requires AlikeUpToCharges(entering, r.k, charge, r.items, r.result, stack, w) && entering.address == env.address
    ensures Safe(entering, r.result, stack, w)
    ensures forall o | Ends(entering, r.items, stack, w, o) :: Finishes(env, charge, [r], entering, r.result, stack, w, o)
    ensures forall o' | Ends(entering, r.result, stack, w, o') :: Started(env, charge, [r], entering, r.items, stack, w, o')
  {
    hide Safe, Ends, SameEnd, ChargedOutcome, Linked;
    forall o | Ends(entering, r.items, stack, w, o)
      ensures Finishes(env, charge, [r], entering, r.result, stack, w, o)
    {
      assert HasUncharged(entering, r.k, charge, r.result, stack, w, o);
      var n: nat, m :| Ends(entering, r.result, stack, w, m) && SameEnd(entering, r.k, o, ChargedOutcome(charge, n, m));
      LinkOne(env, charge, r, entering, o, m, n);
    }
    forall o' | Ends(entering, r.result, stack, w, o')
      ensures Started(env, charge, [r], entering, r.items, stack, w, o')
    {
      assert ChargedOf(entering, r.k, charge, r.items, stack, w, o');
      var n: nat, o :| Ends(entering, r.items, stack, w, o) && SameEnd(entering, r.k, o, ChargedOutcome(charge, n, o'));
      LinkOne(env, charge, r, entering, o, o', n);
    }
  }

  lemma SameEndEntering(env: Env, entering: Env, k: Renaming, o: Outcome, o': Outcome)
    requires SameEnd(entering, k, o, o') && entering.address == env.address
    ensures SameEnd(env, k, o, o')
  {
    if o.Done? {
      forall i | 0 <= i < |o.stack|
        ensures SameWord(env, k, o.stack[i], o'.stack[i])
      {
        assert SameWord(entering, k, o.stack[i], o'.stack[i]);
      }
    }
  }

  lemma LinkOne(env: Env, charge: int -> int, r: Round, entering: Env, o: Outcome, m: Outcome, n: nat)
    requires SameEnd(entering, r.k, o, ChargedOutcome(charge, n, m)) && entering.address == env.address
    ensures Linked(env, charge, [r], o, m)
  {
    LinkMore(env, charge, [r], entering, o, m, n, m);
  }

  lemma LinkMore(env: Env, charge: int -> int, rs: seq<Round>, entering: Env, o: Outcome, m: Outcome, n: nat, o': Outcome)
    requires rs != [] && SameEnd(entering, rs[0].k, o, ChargedOutcome(charge, n, m)) && entering.address == env.address
    requires Linked(env, charge, rs[1..], m, o')
    ensures Linked(env, charge, rs, o, o')
  {
    hide SameEnd, ChargedOutcome;
    SameEndEntering(env, entering, rs[0].k, o, ChargedOutcome(charge, n, m));
  }

  /** After the next round has begun, fewer tags are entered. */
  lemma NextEntering(env: Env, r: Round, next: Round, outside: set<nat>, settings: Settings, stack: seq<Word>, w: World)
    requires RoundOk(r, outside, settings) && RoundOk(next, outside, settings) && next.items == r.result && Sane(env, r.items)
    requires RunsWell(env, next, outside, settings, stack, w)
    ensures var first, second := Entering(env, r.items, outside, settings), Entering(env, r.result, outside, settings);
            forall o :: Ends(first, r.result, stack, w, o) <==> Ends(second, r.result, stack, w, o)
  {
    hide RoundCharged, RoundCorrect, TagsOf, TagsFit, AddressesFit, UniqueTags, Deduplication.WellTagged, Kept, ReferencedTags, Safe, Ends, Tame;
    var first, second := Entering(env, r.items, outside, settings), Entering(env, r.result, outside, settings);
    StillSane(env, r, outside, settings);
    if settings.runJumpdestRemover {
      KeptTags(r.result, ReferencedTags(r.result, None) + outside);
    }
    EndsFewer(first, second, r.result, stack, w);
  }

  lemma MoreLinked(env: Env, charge: int -> int, rs: seq<Round>, first: Env, second: Env, last: Env, result: seq<Item>, stack: seq<Word>, w: World)
    requires rs != [] && AlikeUpToCharges(first, rs[0].k, charge, rs[0].items, rs[0].result, stack, w) && first.address == env.address
    requires forall o :: Ends(first, rs[0].result, stack, w, o) <==> Ends(second, rs[0].result, stack, w, o)
    requires forall o | Ends(second, rs[0].result, stack, w, o) :: Finishes(env, charge, rs[1..], last, result, stack, w, o)
    requires forall o' | Ends(last, result, stack, w, o') :: Started(env, charge, rs[1..], second, rs[0].result, stack, w, o')
    ensures forall o | Ends(first, rs[0].items, stack, w, o) :: Finishes(env, charge, rs, last, result, stack, w, o)
    ensures forall o' | Ends(last, result, stack, w, o') :: Started(env, charge, rs, first, rs[0].items, stack, w, o')
  {
    hide Safe, Ends, HasUncharged, ChargedOf, Finishes, Started;
    forall o | Ends(first, rs[0].items, stack, w, o)
      ensures Finishes(env, charge, rs, last, result, stack, w, o)
    {
      FinishesMore(env, charge, rs, first, last, result, stack, w, o);
    }
    forall o' | Ends(last, result, stack, w, o')
      ensures Started(env, charge, rs, first, rs[0].items, stack, w, o')
    {
      StartedBefore(env, charge, rs, first, second, stack, w, o');
    }
  }

  lemma FinishesMore(env: Env, charge: int -> int, rs: seq<Round>, first: Env, last: Env, result: seq<Item>, stack: seq<Word>, w: World, o: Outcome)
    requires rs != [] && first.address == env.address && HasUncharged(first, rs[0].k, charge, rs[0].result, stack, w, o)
    requires forall m | Ends(first, rs[0].result, stack, w, m) :: Finishes(env, charge, rs[1..], last, result, stack, w, m)
    ensures Finishes(env, charge, rs, last, result, stack, w, o)
  {
    hide Ends, SameEnd, ChargedOutcome, Linked;
    var r := rs[0];
    var n: nat, m :| Ends(first, r.result, stack, w, m) && SameEnd(first, r.k, o, ChargedOutcome(charge, n, m));
    assert Finishes(env, charge, rs[1..], last, result, stack, w, m);
    var o' :| Ends(last, result, stack, w, o') && Linked(env, charge, rs[1..], m, o');
    LinkMore(env, charge, rs, first, o, m, n, o');
  }

  lemma StartedBefore(env: Env, charge: int -> int, rs: seq<Round>, first: Env, second: Env, stack: seq<Word>, w: World, o': Outcome)
    requires rs != [] && first.address == env.address && Started(env, charge, rs[1..], second, rs[0].result, stack, w, o')
    requires forall m | Ends(second, rs[0].result, stack, w, m) :: ChargedOf(first, rs[0].k, charge, rs[0].items, stack, w, m)
    ensures Started(env, charge, rs, first, rs[0].items, stack, w, o')
  {
    hide Ends, SameEnd, ChargedOutcome, Linked;
    var r := rs[0];
    var m :| Ends(second, r.result, stack, w, m) && Linked(env, charge, rs[1..], m, o');
    assert ChargedOf(first, r.k, charge, r.items, stack, w, m);
    var n: nat, o :| Ends(first, r.items, stack, w, o) && SameEnd(first, r.k, o, ChargedOutcome(charge, n, m));
    LinkMore(env, charge, rs, first, o, m, n, o');
  }
}
