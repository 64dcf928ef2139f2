/** Common subexpression elimination over a whole program, block by block
    (libevmasm/Assembly.cpp:444-487). */
module CsePass {
  import opened Wrappers
  import opened Instructions
  import opened Items
  import opened Machine
  import opened Semantics
  import opened Classes
  import opened Rewriting
  import opened CodeGenerators
  import opened ComputingOnce
  import opened Elimination
  import opened FreeGas
  import opened KnownStates
  import Rules
  import opened Knowing

  /** What replacing one block by an equivalent one is worth. */
  lemma EquivalentReplaces(env: Env, before: seq<Item>, after: seq<Item>)
    requires AddressesFit(env) && Equivalent(before, after) && TagsKept(Piece(before, after))
    ensures Replaces(env, Piece(before, after))
  {
    hide Exec, AddressesFit;
    forall stack, w
      ensures SameStep(env, Piece(before, after), stack, w)
    {
      var init := Init(env, stack, w);
      assert ValidInit(init);
      assert EquivalentAt(init.env, before, after, init.stack, init.world);
    }
  }

  ghost predicate Justified(p: Piece) {
    Equivalent(p.before, p.after) && TagsKept(p)
  }

  ghost predicate AllJustified(ps: seq<Piece>) {
    forall i | 0 <= i < |ps| :: Justified(ps[i])
  }

  lemma JustifiedCorrect(env: Env, ps: seq<Piece>)
    requires AddressesFit(env) && AllJustified(ps) && DistinctTags(env, Before(ps))
    ensures SameBehaviour(env, Before(ps), Rewriting.After(ps))
    ensures TagsOf(Rewriting.After(ps)) == TagsOf(Before(ps))
  {
    hide Replaces, Equivalent, TagsKept, SameBehaviour, AddressesFit;
    forall i | 0 <= i < |ps|
      ensures Replaces(env, ps[i])
    {
      assert Justified(ps[i]);
      EquivalentReplaces(env, ps[i].before, ps[i].after);
    }
    PiecewiseCorrect(env, ps);
  }

  /** The program behaves as before in every environment that places its tags at different addresses. */
  ghost predicate BehavesAs(before: seq<Item>, after: seq<Item>) {
    forall env | AddressesFit(env) && DistinctTags(env, before) ::
      SameBehaviour(env, before, after) && TagsOf(after) == TagsOf(before)
  }

  /** The program loses charges at most: some occurrences of FREEGAS are gone, and apart from that the
      behaviour is the same. */
  ghost predicate LosesCharges(before: seq<Item>, after: seq<Item>) {
    exists shed :: Sheds(before, shed) && BehavesAs(shed, after)
  }

  /** Where nothing but the balance shows a charge, a program that loses charges does the same. */
  lemma ChargesAside(env: Env, charge: int -> int, before: seq<Item>, after: seq<Item>)
    requires LosesCharges(before, after) && AddressesFit(env) && DistinctTags(env, before) && Unnoticed(env, charge)
    ensures SameUpToCharges(env, charge, before, after)
  {
    hide AddressesFit, Unnoticed, SameUpToCharges, SameBehaviour;
    var shed :| Sheds(before, shed) && BehavesAs(shed, after);
    ShedsTags(before, shed);
    ShedsBehave(env, charge, before, shed);
    UpToChargesThenSame(env, charge, before, shed, after);
  }

  /** Without FREEGAS there is nothing to lose. */
  lemma NoChargeToLose(before: seq<Item>, after: seq<Item>)
    requires LosesCharges(before, after) && NoFreeGas(before)
    ensures BehavesAs(before, after)
  {
    hide BehavesAs;
    var shed :| Sheds(before, shed) && BehavesAs(shed, after);
    ShedsNothing(before, shed);
  }

  // ----- the blocks -----

  /** A block, and the code that was found for it, unless there was none. */
  datatype Chunk = Chunk(block: seq<Item>, found: Option<seq<Item>>)

  function Chosen(c: Chunk): seq<Item> {
    if c.found.Some? && |c.found.value| < |c.block| then c.found.value else c.block
  }

  function BlocksOf(cs: seq<Chunk>): seq<Item> {
    if cs == [] then [] else BlocksOf(cs[..|cs| - 1]) + cs[|cs| - 1].block
  }

  function ChosenOf(cs: seq<Chunk>): seq<Item> {
    if cs == [] then [] else ChosenOf(cs[..|cs| - 1]) + Chosen(cs[|cs| - 1])
  }

  /** A block ends at the first item that breaks it, or with the program. */
  predicate IsBlock(block: seq<Item>, msizeImportant: bool, last: bool) {
    && block != [] && (forall i | 0 <= i < |block| - 1 :: !BreaksBlock(block[i], msizeImportant))
    && (last || BreaksBlock(block[|block| - 1], msizeImportant))
  }

  /** No constant is computed twice, not counting the item that ends the block. */
  ghost predicate FewLeaves(code: seq<Item>) {
    exists front, last :: code == front + Breaking(last) && LeavesOnce(front)
  }

  ghost predicate IsChunk(c: Chunk, msizeImportant: bool, last: bool) {
    && IsBlock(c.block, msizeImportant, last)
    && (c.found.Some? ==> Equivalent(WithoutFreeGas(c.block), c.found.value) && FewLeaves(c.found.value))
  }

  ghost predicate AreChunks(cs: seq<Chunk>, msizeImportant: bool, last: bool) {
    forall i | 0 <= i < |cs| :: IsChunk(cs[i], msizeImportant, last && i == |cs| - 1)
  }

  /** The program is cut into maximal blocks, and each of them is replaced where that makes it shorter;
      with MSIZE, loads from memory end blocks as well. */
  ghost predicate Eliminated(items: seq<Item>, result: seq<Item>) {
    exists cs :: && BlocksOf(cs) == items && AreChunks(cs, Operation(MSIZE) in items, true)
                 && result == if |ChosenOf(cs)| < |items| then ChosenOf(cs) else items
  }

  lemma NoChunks(msizeImportant: bool, last: bool)
    ensures BlocksOf([]) == [] && ChosenOf([]) == [] && AreChunks([], msizeImportant, last)
  {
  }

  lemma FedBlock(items: seq<Item>, n: nat, breakingItem: Option<Item>, msizeImportant: bool)
    requires 0 < n <= |items| && forall j | 0 <= j < n - |Breaking(breakingItem)| :: !BreaksBlock(items[j], msizeImportant)
    requires if breakingItem.Some? then BreaksBlock(items[n - 1], msizeImportant) else n == |items|
    ensures IsBlock(items[..n], msizeImportant, n == |items|)
  {
    hide BreaksBlock;
  }

  lemma FewLeavesIn(code: seq<Item>, reps: seq<Rules.Expr>, last: Option<Item>)
    requires exists front :: code == front + Breaking(last) && EachOnce(reps, front) && LeavesOnce(front)
    ensures FewLeaves(code)
  {
    hide EachOnce, LeavesOnce;
  }

  lemma OneMoreChunk(cs: seq<Chunk>, c: Chunk, msizeImportant: bool, last: bool)
    requires AreChunks(cs, msizeImportant, false) && IsChunk(c, msizeImportant, last)
    ensures AreChunks(cs + [c], msizeImportant, last)
    ensures BlocksOf(cs + [c]) == BlocksOf(cs) + c.block && ChosenOf(cs + [c]) == ChosenOf(cs) + Chosen(c)
  {
    hide IsChunk;
    assert (cs + [c])[..|cs|] == cs;
  }

  /** Replaces every block by its optimised form where that is shorter. */
  method EliminateSubexpressions(items: seq<Item>) returns (r: Result<seq<Item>>)
    ensures r.Success? ==> (|r.value| < |items| || r.value == items) && (NoFreeGas(items) ==> BehavesAs(items, r.value))
    ensures r.Success? ==> LosesCharges(items, r.value) && Eliminated(items, r.value)
    ensures r.Success? ==> NothingMadeUp(items, r.value) && TagsOf(r.value) == TagsOf(items)
    ensures r.Failure? ==> r.error == Overflow && TooLong(items)
    ensures r.Success? ==> forall env, charge | AddressesFit(env) && DistinctTags(env, items) && Unnoticed(env, charge) ::
              SameUpToCharges(env, charge, items, r.value)
  {
    hide Justified, SameBehaviour, TagsOf, BehavesAs, AddressesFit, DistinctTags, Unnoticed, SameUpToCharges, AreChunks, IsChunk, BlocksOf, ChosenOf, Chosen;
    var usesMSize := Operation(MSIZE) in items;
    var optimised: seq<Item> := [];
    ghost var ps: seq<Piece> := [];
    ghost var cs: seq<Chunk> := [];
    NoChunks(usesMSize, false);
    NoChunks(usesMSize, true);
    var i := 0;
    while i < |items|
      invariant 0 <= i <= |items| && AllJustified(ps)
      invariant Sheds(items[..i], Before(ps)) && Rewriting.After(ps) == optimised
      invariant |optimised| <= i && NothingMadeUp(items, optimised)
      invariant BlocksOf(cs) == items[..i] && ChosenOf(cs) == optimised && AreChunks(cs, usesMSize, i == |items|)
    {
      var chunk, shed, c := OptimiseChunk(items[i..], usesMSize);
      if chunk.Failure? {
        return Failure(chunk.error);
      }
      var (n, code) := chunk.value;
      PiecesAppend(ps, Piece(shed, code));
      ShedsConcat(items[..i], Before(ps), items[i..][..n], shed);
      OneMoreChunk(cs, c, usesMSize, n == |items[i..]|);
      ps, cs := ps + [Piece(shed, code)], cs + [c];
      optimised := optimised + code;
      assert items[..i] + items[i..][..n] == items[..i + n];
      i := i + n;
    }
    assert items[..i] == items;
    AllBehave(ps);
    PiecesTags(items, ps);
    r := Success(if |optimised| < |items| then optimised else items);
    if |optimised| >= |items| {
      ShedsSelf(items);
      AllBehaveSelf(items);
    }
    if NoFreeGas(items) {
      NoChargeToLose(items, r.value);
    }
    forall env, charge | AddressesFit(env) && DistinctTags(env, items) && Unnoticed(env, charge)
      ensures SameUpToCharges(env, charge, items, r.value)
    {
      ChargesAside(env, charge, items, r.value);
    }
  }

  lemma PiecesTags(items: seq<Item>, ps: seq<Piece>)
    requires Sheds(items, Before(ps)) && AllJustified(ps)
    ensures TagsOf(Rewriting.After(ps)) == TagsOf(items)
  {
    hide Equivalent, TagsKept;
    ShedsTags(items, Before(ps));
    forall i | 0 <= i < |ps|
      ensures TagsKept(ps[i])
    {
      assert Justified(ps[i]);
    }
    TagsOfPieces(ps);
  }

  lemma AllBehave(ps: seq<Piece>)
    requires AllJustified(ps)
    ensures BehavesAs(Before(ps), Rewriting.After(ps))
  {
    hide AllJustified, SameBehaviour, AddressesFit, DistinctTags;
    forall env | AddressesFit(env) && DistinctTags(env, Before(ps))
      ensures SameBehaviour(env, Before(ps), Rewriting.After(ps)) && TagsOf(Rewriting.After(ps)) == TagsOf(Before(ps))
    {
      JustifiedCorrect(env, ps);
    }
  }

  lemma AllBehaveSelf(items: seq<Item>)
    ensures BehavesAs(items, items)
  {
    hide SameBehaviour, AddressesFit, DistinctTags;
    forall env: Env
      ensures SameBehaviour(env, items, items)
    {
      SameBehaviourReflexive(env, items);
    }
  }

  /** Programs of more than a hundred million items can leave the range of 32-bit stack heights. */
  predicate TooLong(items: seq<Item>) {
    17 * |items| + 36 >= HEIGHT_LIMIT
  }

  /** What code that was found for a block is like. */
  ghost predicate IsFound(items: seq<Item>, block: seq<Item>, code: seq<Item>) {
    && Equivalent(WithoutFreeGas(block), code) && TagsKept(Piece(block, code))
    && NoFreeGas(code) && OnlyPushes(code, iset x | x in items) && FewLeaves(code)
  }

  /** Looks for better code for the first block of the items; the first result is the length of the block. */
  method FindCode(items: seq<Item>, usesMSize: bool) returns (length: Result<nat>, found: Result<seq<Item>>)
    requires items != []
    ensures length.Success? ==>
              && 0 < length.value <= |items| && IsBlock(items[..length.value], usesMSize, length.value == |items|)
              && Justified(Piece(items[..length.value], items[..length.value]))
              && (found.Success? ==> IsFound(items, items[..length.value], found.value))
              && (found.Failure? ==> found.error == StackTooDeep || (found.error == Overflow && TooLong(items)))
    ensures length.Failure? ==> length.error == Overflow && TooLong(items)
  {
    hide OwnClasses, Tidy, KnownValues, TableOk, SizesRecorded, TagsFrom, KnowledgeOk, SoundKnowledge, StoreList, AllExecutable, Breaking, Equivalent, TagAtEnd, TagsKept, Reach, ReachGrows, TooHigh, BreaksBlock, LeavesOnce, EachOnce, IsBlock, FewLeaves, WithoutFreeGas, Straight, OnlyPushes, Justified;
    found := Failure(Overflow);
    var eliminator := new CommonSubexpressionEliminator(iset x | x in items);
    length := eliminator.FeedItems(items, usesMSize);
    if length.Failure? {
      TooHighAtStart(17 * |items|);
      return;
    }
    var n := length.value;
    ghost var ending := eliminator.breakingItem;
    FedBlock(items, n, ending, usesMSize);
    ghost var h, s := eliminator.state.stackHeight, eliminator.state.stackElements;
    JustifiedSelf(eliminator.original, eliminator.breakingItem);
    found := eliminator.GetOptimizedItems();
    if found.Success? {
      FewLeavesIn(found.value, eliminator.classes.representatives, eliminator.breakingItem);
    } else if found.error != StackTooDeep {
      TooHighLater(0, map[], h, s, 17 * n, 36);
      TooHighAtStart(17 * n + 36);
    }
  }

  /** Optimises the first block of the items; the result is its length and its replacement. Errors
      that say that no better code was found leave the block as it is. `shed` is the block that the
      replacement is equivalent to. */
  method OptimiseChunk(items: seq<Item>, usesMSize: bool) returns (r: Result<(nat, seq<Item>)>, ghost shed: seq<Item>, ghost chunk: Chunk)
    requires items != []
    ensures r.Success? ==>
              && 0 < r.value.0 <= |items| && |r.value.1| <= r.value.0
              && Sheds(items[..r.value.0], shed) && Justified(Piece(shed, r.value.1))
              && NothingMadeUp(items, r.value.1)
              && chunk.block == items[..r.value.0] && r.value.1 == Chosen(chunk)
              && IsChunk(chunk, usesMSize, r.value.0 == |items|)
    ensures r.Failure? ==> r.error == Overflow && TooLong(items)
  {
    hide Equivalent, TagsKept, IsBlock, FewLeaves, WithoutFreeGas, OnlyPushes;
    shed, chunk := items, Chunk(items, None);
    var length, code := FindCode(items, usesMSize);
    if length.Failure? {
      r := Failure(length.error);
      return;
    }
    var n := length.value;
    ghost var original := items[..n];
    chunk := Chunk(original, if code.Success? then Some(code.value) else None);
    if code.Success? && |code.value| < n {
      ShedsAll(original);
      GeneratedFrom(items, original, code.value);
      WithoutTagsKept(original, code.value);
      r, shed := Success((n, code.value)), WithoutFreeGas(original);
      return;
    }
    if code.Failure? && code.error != StackTooDeep {
      r := Failure(code.error);
      return;
    }
    ShedsSelf(original);
    r, shed := Success((n, items[..n])), original;
  }

  lemma TagIsLast(p: Piece, i: nat)
    requires TagsKept(p) && i < |p.after| && p.after[i].Tag?
    ensures p.after[i] in p.before
  {
    var front := p.after[..|p.after| - 1];
    assert forall j | 0 <= j < |front| :: p.after[j] == front[j];
  }

  lemma GeneratedFrom(items: seq<Item>, original: seq<Item>, after: seq<Item>)
    requires original <= items && TagsKept(Piece(original, after))
    requires NoFreeGas(after) && OnlyPushes(after, iset x | x in items)
    ensures NothingMadeUp(items, after)
  {
    forall x | x in after && (x.Tag? || x.PushTag? || x == CHARGE)
      ensures x in items
    {
      var i :| 0 <= i < |after| && after[i] == x;
      assert MayPush(after[i], iset x | x in items);
      if x.Tag? {
        TagIsLast(Piece(original, after), i);
      }
    }
  }

  lemma JustifiedSelf(items: seq<Item>, last: Option<Item>)
    requires TagAtEnd(items, last)
    ensures Justified(Piece(items, items))
  {
    hide Equivalent;
    EquivalentReflexive(items);
  }
}
