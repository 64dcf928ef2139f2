/** Removal of unreferenced jump destinations (libevmasm/JumpdestRemover.cpp). */
module JumpdestRemoval {
  import opened Wrappers
  import opened Words
  import opened Items
  import opened Machine
  import opened Rewriting
  import opened Peephole

  /** The tags of sub-assembly `subId` (of the assembly itself for none) that the items push. */
  function ReferencedTags(items: seq<Item>, subId: Option<nat>): set<nat> {
    if items == [] then {}
    else
      var rest := ReferencedTags(items[1..], subId);
      if items[0].PushTag? && SplitForeign(items[0].data).0 == subId
      then {SplitForeign(items[0].data).1} + rest
      else rest
  }

  predicate Keeps(item: Item, references: set<nat>) {
    item.Tag? ==> SplitForeign(item.data).1 in references
  }

  function Kept(items: seq<Item>, references: set<nat>): seq<Item> {
    if items == [] then []
    else (if Keeps(items[0], references) then [items[0]] else []) + Kept(items[1..], references)
  }

  predicate OnlyLocalTags(items: seq<Item>) {
    forall i | 0 <= i < |items| && items[i].Tag? :: IsLocal(items[i].data)
  }

  lemma {:induction false} ReferencedConcat(a: seq<Item>, b: seq<Item>, subId: Option<nat>)
    ensures ReferencedTags(a + b, subId) == ReferencedTags(a, subId) + ReferencedTags(b, subId)
  {
    if a == [] {
      assert a + b == b;
    } else {
      assert (a + b)[0] == a[0] && (a + b)[1..] == a[1..] + b;
      ReferencedConcat(a[1..], b, subId);
    }
  }

  lemma {:induction false} KeptConcat(a: seq<Item>, b: seq<Item>, references: set<nat>)
    ensures Kept(a + b, references) == Kept(a, references) + Kept(b, references)
  {
    if a == [] {
      assert a + b == b;
    } else {
      assert (a + b)[0] == a[0] && (a + b)[1..] == a[1..] + b;
      KeptConcat(a[1..], b, references);
    }
  }

  class JumpdestRemover {
    var items: seq<Item>

    constructor (items: seq<Item>)
      ensures this.items == items
    {
      this.items := items;
    }

    static method CollectReferences(items: seq<Item>, subId: Option<nat>) returns (tags: set<nat>)
      ensures tags == ReferencedTags(items, subId)
    {
      tags := {};
      for i := 0 to |items|
        invariant tags == ReferencedTags(items[..i], subId)
      {
        assert items[..i + 1] == items[..i] + [items[i]];
        ReferencedConcat(items[..i], [items[i]], subId);
        if items[i].PushTag? {
          var split := SplitForeign(items[i].data);
          if split.0 == subId {
            tags := tags + {split.1};
          }
        }
      }
      assert items[..|items|] == items;
    }

    /** Removes the tags nobody refers to. Fails, leaving the items alone, when a tag of a
        sub-assembly is used as a label. */
    method Optimise(referencedFromOutside: set<nat>) returns (changed: Option<bool>)
      modifies this
      ensures changed.None? <==> !OnlyLocalTags(old(items))
      ensures changed.None? ==> items == old(items)
      ensures changed.Some? ==>
                && items == Kept(old(items), ReferencedTags(old(items), None) + referencedFromOutside)
                && changed.value == (items != old(items))
    {
      var references := CollectReferences(items, None);
      references := references + referencedFromOutside;
      var kept: seq<Item> := [];
      for i := 0 to |items|
        invariant items == old(items)
        invariant OnlyLocalTags(items[..i])
        invariant kept == Kept(items[..i], references)
      {
        assert items[..i + 1] == items[..i] + [items[i]];
        KeptConcat(items[..i], [items[i]], references);
        if items[i].Tag? && !IsLocal(items[i].data) {
          return None;
        }
        if Keeps(items[i], references) {
          kept := kept + [items[i]];
        }
      }
      assert items[..|items|] == items;
      KeptLength(items, references);
      changed := Some(|kept| != |items|);
      items := kept;
    }
  }

  lemma {:induction false} KeptLength(items: seq<Item>, references: set<nat>)
    ensures |Kept(items, references)| <= |items|
    ensures |Kept(items, references)| == |items| ==> Kept(items, references) == items
  {
    if items != [] {
      KeptLength(items[1..], references);
    }
  }

  // ----- behaviour -----

  /** The run enters only tags that are kept. */
  ghost predicate EntriesKept(env: Env, prog: seq<Item>, references: set<nat>) {
    forall t | t in TagsOf(prog) && env.entry(t) :: SplitForeign(t).1 in references
  }

  lemma {:induction false} KeptTarget(env: Env, prog: seq<Item>, references: set<nat>, dest: Word)
    requires EntriesKept(env, prog, references)
    ensures Target(env, Kept(prog, references), dest) ==
              match Target(env, prog, dest)
              case None => None
              case Some(rest) => Some(Kept(rest, references))
  {
    if prog != [] {
      var k := Kept(prog[1..], references);
      KeptTarget(env, prog[1..], references, dest);
      if Keeps(prog[0], references) {
        assert Kept(prog, references) == [prog[0]] + k;
        assert ([prog[0]] + k)[1..] == k;
      } else {
        assert Kept(prog, references) == k;
        assert prog[0].data in TagsOf(prog);
      }
    }
  }

  /** Both programs run in lock step. */
  lemma {:induction false} KeptRun(env: Env, prog: seq<Item>, references: set<nat>, rest: seq<Item>, stack: seq<Word>, w: World, fuel: nat)
    requires EntriesKept(env, prog, references)
    ensures Run(env, Kept(prog, references), Kept(rest, references), stack, w, fuel) == Run(env, prog, rest, stack, w, fuel)
    decreases fuel, |rest|
  {
    hide ExecItem, Target, EntriesKept;
    if rest != [] {
      var k := Kept(rest[1..], references);
      if !Keeps(rest[0], references) {
        ExecTag(env, rest[0], stack, w);
        assert Kept(rest, references) == k;
        KeptRun(env, prog, references, rest[1..], stack, w, fuel);
      } else {
        assert Kept(rest, references) == [rest[0]] + k;
        assert ([rest[0]] + k)[1..] == k;
        var r := ExecItem(env, rest[0], stack, w);
        if r.Next? {
          KeptRun(env, prog, references, rest[1..], r.stack, r.world, fuel);
        } else if r.Jump? {
          KeptTarget(env, prog, references, r.dest);
          var t := Target(env, prog, r.dest);
          if t.Some? && fuel > 0 {
            KeptRun(env, prog, references, t.value, r.stack, r.world, fuel - 1);
          }
        }
      }
    }
  }

  /** Removing unreferenced jump destinations keeps the behaviour of every run that jumps only to
      tags pushed in the items or referenced from outside. */
  lemma RemovalCorrect(env: Env, prog: seq<Item>, references: set<nat>)
    requires EntriesKept(env, prog, references)
    ensures SameBehaviour(env, prog, Kept(prog, references))
  {
    hide Run, Kept;
    forall stack, w, fuel: nat
      ensures Run(env, Kept(prog, references), Kept(prog, references), stack, w, fuel) == Run(env, prog, prog, stack, w, fuel)
    {
      KeptRun(env, prog, references, prog, stack, w, fuel);
    }
  }

  /** A peephole pass followed by the removal of unreferenced jump destinations. */
  lemma PeepholeThenRemoval(env: Env, prog: seq<Item>, outside: set<nat>)
    requires TagsFit(env) && DistinctTags(env, prog)
    requires EntriesKept(env, prog, ReferencedTags(Pass(prog), None) + outside)
    ensures SameBehaviour(env, prog, Kept(Pass(prog), ReferencedTags(Pass(prog), None) + outside))
  {
    hide SameBehaviour, Pass;
    PassCorrect(env, prog);
    var references := ReferencedTags(Pass(prog), None) + outside;
    RemovalCorrect(env, Pass(prog), references);
    SameBehaviourTransitive(env, prog, Pass(prog), Kept(Pass(prog), references));
  }
}
