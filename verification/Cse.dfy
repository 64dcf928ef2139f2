/** Common subexpression elimination for one block (libevmasm/CommonSubexpressionEliminator.cpp:34-120). */
module Elimination {
  import opened Wrappers
  import opened Words
  import opened Instructions
  import opened Items
  import opened Machine
  import opened Rules
  import opened Semantics
  import opened Classes
  import opened Knowing
  import opened KnownStates
  import opened Generating
  import opened CodeGenerators
  import opened ComputingOnce
  import opened FreeGas
  import Rewriting

  // ----- equivalence of blocks -----

  ghost predicate EquivalentAt(env: Env, before: seq<Item>, after: seq<Item>, stack: seq<Word>, w: World) {
    var r := Exec(env, before, stack, w);
    r.Fail? || Exec(env, after, stack, w) == r
  }

  /** Wherever the first block does not fail, both give the same stack, storage, memory and control transfer. */
  ghost predicate Equivalent(before: seq<Item>, after: seq<Item>) {
    forall init | ValidInit(init) :: EquivalentAt(init.env, before, after, init.stack, init.world)
  }

  lemma EquivalentReflexive(a: seq<Item>)
    ensures Equivalent(a, a)
  {
    hide Exec, ValidInit;
  }

  lemma EquivalentTransitive(a: seq<Item>, b: seq<Item>, c: seq<Item>)
    requires Equivalent(a, b) && Equivalent(b, c)
    ensures Equivalent(a, c)
  {
    hide Exec, ValidInit;
    forall init | ValidInit(init)
      ensures EquivalentAt(init.env, a, c, init.stack, init.world)
    {
      assert EquivalentAt(init.env, a, b, init.stack, init.world);
      assert EquivalentAt(init.env, b, c, init.stack, init.world);
    }
  }

  lemma EquivalentExtended(a: seq<Item>, b: seq<Item>, rest: seq<Item>)
    requires Equivalent(a, b)
    ensures Equivalent(a + rest, b + rest)
  {
    hide Exec, ValidInit;
    forall init | ValidInit(init)
      ensures EquivalentAt(init.env, a + rest, b + rest, init.stack, init.world)
    {
      assert EquivalentAt(init.env, a, b, init.stack, init.world);
      ExecConcat(init.env, a, rest, init.stack, init.world);
      ExecConcat(init.env, b, rest, init.stack, init.world);
    }
  }

  // ----- the stores of a block -----

  /** The records are those of all stores in the table, in order. */
  predicate StoreList(reps: seq<Expr>, ops: seq<StoreOperation>) {
    && |ops| == |StoreIds(reps)|
    && forall i | 0 <= i < |ops| :: Describes(reps, ops[i]) && ops[i].expression == StoreIds(reps)[i]
  }

  lemma StoreListNext(before: seq<Expr>, after: seq<Expr>, ops: seq<StoreOperation>, op: Option<StoreOperation>)
    requires StoreList(before, ops) && Reported(before, after, op)
    ensures StoreList(after, if op.Some? then ops + [op.value] else ops)
  {
    hide StoreIds;
    forall i | 0 <= i < |ops|
      ensures Describes(after, ops[i])
    {
      assert Describes(before, ops[i]);
    }
  }

  lemma {:induction false} StoreIdsAscend(reps: seq<Expr>)
    ensures forall i | 0 <= i < |StoreIds(reps)| :: StoreIds(reps)[i] < |reps|
    ensures forall i, j | 0 <= i < j < |StoreIds(reps)| :: StoreIds(reps)[i] < StoreIds(reps)[j]
    ensures forall s | 0 <= s < |reps| && IsStoreItem(reps[s].item) :: s in StoreIds(reps)
  {
    if reps != [] {
      var n := |reps| - 1;
      StoreIdsAscend(reps[..n]);
      forall s | 0 <= s < |reps| && IsStoreItem(reps[s].item)
        ensures s in StoreIds(reps)
      {
        if s < n {
          assert reps[..n][s] == reps[s];
        }
      }
    }
  }

  /** The records are what the code generator expects. */
  lemma StoreListOk(reps: seq<Expr>, seqNr: nat, ops: seq<StoreOperation>)
    requires StoreList(reps, ops) && Chronological(reps, seqNr)
    ensures StoresOf(reps, ops) && Ascending(ops)
  {
    hide StoreIds;
    StoreIdsAscend(reps);
    forall i, j | 0 <= i < j < |ops|
      ensures ops[i].seqNr < ops[j].seqNr
    {
      assert Describes(reps, ops[i]) && Describes(reps, ops[j]);
      StoreIsMemory(reps[ops[i].expression]);
      StoreIsMemory(reps[ops[j].expression]);
      assert InOrder(reps[ops[i].expression], reps[ops[j].expression]);
    }
    forall s | 0 <= s < |reps| && IsStoreItem(reps[s].item)
      ensures RecordOf(reps, s) in ops
    {
      assert s in StoreIds(reps);
      var i :| 0 <= i < |StoreIds(reps)| && StoreIds(reps)[i] == s;
      assert Describes(reps, ops[i]);
      assert ops[i] == RecordOf(reps, s);
    }
  }

  // ----- knowledge that was refined -----

  const TWO_ELEMENTS: seq<Item> := [Operation(SWAP1), Operation(SWAP1)]

  /** Swapping twice changes nothing, but it needs two elements on the stack. */
  lemma ExecTwoElements(env: Env, stack: seq<Word>, w: World)
    ensures Exec(env, TWO_ELEMENTS, stack, w) == if |stack| < 2 then Fail else Next(stack, w)
  {
    hide ExecItem, Exec;
    ExecTwo(env, Operation(SWAP1), Operation(SWAP1), stack, w);
    ExecSwap(env, SWAP1, stack, w);
    SwapTwice(env, SWAP1, stack, w);
  }

  /** Looking at the two topmost elements is sound when they have to be there. */
  lemma TwoElementsSound(k: Knowledge, k': Knowledge, fed: seq<Item>)
    requires SoundKnowledge(k, fed) && Refines(k, k', 2)
    ensures SoundKnowledge(k', fed + TWO_ELEMENTS)
  {
    hide KnowledgeOk, Agrees, ValidInit, Exec, TWO_ELEMENTS;
    forall init | ValidInit(init)
      ensures SoundAfter(init, k', fed + TWO_ELEMENTS)
    {
      assert SoundAfter(init, k, fed);
      ExecConcat(init.env, fed, TWO_ELEMENTS, init.stack, init.world);
      var r := Exec(init.env, fed, init.stack, init.world);
      if r.Next? {
        ExecTwoElements(init.env, r.stack, r.world);
      }
    }
  }

  // ----- items that end a block -----

  /** After the items, the element below the top is (not) zero, as far as there is one. */
  ghost predicate SecondZero(fed: seq<Item>, zero: bool) {
    forall init | ValidInit(init) :: SecondZeroAt(init, fed, zero)
  }

  ghost predicate SecondZeroAt(init: Init, fed: seq<Item>, zero: bool) {
    var r := Exec(init.env, fed, init.stack, init.world);
    r.Next? && |r.stack| >= 2 ==> (r.stack[|r.stack| - 2] == 0) == zero
  }

  lemma SecondKnown(k: Knowledge, fed: seq<Item>, id: Id, zero: bool)
    requires SoundKnowledge(k, fed + TWO_ELEMENTS) && HoldsAt(k.stack, k.height - 1, id)
    requires if zero then AlwaysIs(k.reps, id, 0) else AlwaysNonZero(k.reps, id)
    ensures SecondZero(fed, zero)
  {
    hide Agrees, ValidInit, Exec, TWO_ELEMENTS, Chronological, ContentBelow, Nu;
    forall init | ValidInit(init)
      ensures SecondZeroAt(init, fed, zero)
    {
      assert SoundAfter(init, k, fed + TWO_ELEMENTS);
      ExecConcat(init.env, fed, TWO_ELEMENTS, init.stack, init.world);
      var r := Exec(init.env, fed, init.stack, init.world);
      if r.Next? && |r.stack| >= 2 {
        ExecTwoElements(init.env, r.stack, r.world);
        ElementValue(init, k, k.height - 1, r.stack, r.world);
      }
    }
  }

  function Breaking(item: Option<Item>): seq<Item> {
    if item.Some? then [item.value] else []
  }

  /** A conditional jump whose condition always holds is a jump. */
  lemma AlwaysJumps(fed: seq<Item>)
    requires SecondZero(fed, false)
    ensures Equivalent(fed + [Operation(JUMPI)], fed + TWO_ELEMENTS + [Operation(SWAP1)] + [Operation(POP)] + [Operation(JUMP)])
  {
    hide ValidInit, Exec, TWO_ELEMENTS, ExecItem;
    var tail := TWO_ELEMENTS + [Operation(SWAP1), Operation(POP), Operation(JUMP)];
    assert fed + TWO_ELEMENTS + [Operation(SWAP1)] + [Operation(POP)] + [Operation(JUMP)] == fed + tail;
    forall init | ValidInit(init)
      ensures EquivalentAt(init.env, fed + [Operation(JUMPI)], fed + tail, init.stack, init.world)
    {
      assert SecondZeroAt(init, fed, false);
      ExecConcat(init.env, fed, [Operation(JUMPI)], init.stack, init.world);
      ExecConcat(init.env, fed, tail, init.stack, init.world);
      var r := Exec(init.env, fed, init.stack, init.world);
      if r.Next? {
        ExecOne(init.env, Operation(JUMPI), r.stack, r.world);
        ExecJumpI(init.env, r.stack, r.world);
        if |r.stack| >= 2 {
          SwapPopJump(init.env, r.stack, r.world);
        }
      }
    }
  }

  lemma SwapPopJump(env: Env, stack: seq<Word>, w: World)
    requires |stack| >= 2
    ensures Exec(env, TWO_ELEMENTS + [Operation(SWAP1), Operation(POP), Operation(JUMP)], stack, w) ==
            Jump(stack[|stack| - 1], Drop(stack, 2), w)
  {
    hide Exec, TWO_ELEMENTS, ExecItem;
    ExecConcat(env, TWO_ELEMENTS, [Operation(SWAP1), Operation(POP), Operation(JUMP)], stack, w);
    ExecTwoElements(env, stack, w);
    ExecThree(env, Operation(SWAP1), Operation(POP), Operation(JUMP), stack, w);
    ExecSwap(env, SWAP1, stack, w);
    var swapped := SwapTop(stack, 1);
    ExecPop(env, swapped, w);
    ExecJump(env, Drop(swapped, 1), w);
    assert Drop(Drop(swapped, 1), 1) == Drop(stack, 2);
  }

  /** A conditional jump whose condition never holds drops its arguments. */
  lemma NeverJumps(fed: seq<Item>)
    requires SecondZero(fed, true)
    ensures Equivalent(fed + [Operation(JUMPI)], fed + TWO_ELEMENTS + [Operation(POP)] + [Operation(POP)])
  {
    hide ValidInit, Exec, TWO_ELEMENTS, ExecItem;
    var tail := TWO_ELEMENTS + [Operation(POP), Operation(POP)];
    assert fed + TWO_ELEMENTS + [Operation(POP)] + [Operation(POP)] == fed + tail;
    forall init | ValidInit(init)
      ensures EquivalentAt(init.env, fed + [Operation(JUMPI)], fed + tail, init.stack, init.world)
    {
      assert SecondZeroAt(init, fed, true);
      ExecConcat(init.env, fed, [Operation(JUMPI)], init.stack, init.world);
      ExecConcat(init.env, fed, tail, init.stack, init.world);
      var r := Exec(init.env, fed, init.stack, init.world);
      if r.Next? {
        ExecOne(init.env, Operation(JUMPI), r.stack, r.world);
        ExecJumpI(init.env, r.stack, r.world);
        if |r.stack| >= 2 {
          PopPop(init.env, r.stack, r.world);
        }
      }
    }
  }

  lemma PopPop(env: Env, stack: seq<Word>, w: World)
    requires |stack| >= 2
    ensures Exec(env, TWO_ELEMENTS + [Operation(POP), Operation(POP)], stack, w) == Next(Drop(stack, 2), w)
  {
    hide Exec, TWO_ELEMENTS, ExecItem;
    ExecConcat(env, TWO_ELEMENTS, [Operation(POP), Operation(POP)], stack, w);
    ExecTwoElements(env, stack, w);
    ExecTwo(env, Operation(POP), Operation(POP), stack, w);
    ExecPop(env, stack, w);
    ExecPop(env, Drop(stack, 1), w);
    assert Drop(Drop(stack, 1), 1) == Drop(stack, 2);
  }

  /** Returning nothing is stopping. */
  lemma ReturnsNothing(fed: seq<Item>)
    requires SecondZero(fed, true)
    ensures Equivalent(fed + [Operation(RETURN)], fed + TWO_ELEMENTS + [Operation(POP)] + [Operation(POP)] + [Operation(STOP)])
  {
    hide ValidInit, Exec, TWO_ELEMENTS, ExecItem;
    var tail := TWO_ELEMENTS + [Operation(POP), Operation(POP)];
    assert fed + TWO_ELEMENTS + [Operation(POP)] + [Operation(POP)] + [Operation(STOP)] == fed + (tail + [Operation(STOP)]);
    forall init | ValidInit(init)
      ensures EquivalentAt(init.env, fed + [Operation(RETURN)], fed + (tail + [Operation(STOP)]), init.stack, init.world)
    {
      assert SecondZeroAt(init, fed, true);
      ExecConcat(init.env, fed, [Operation(RETURN)], init.stack, init.world);
      ExecConcat(init.env, fed, tail + [Operation(STOP)], init.stack, init.world);
      var r := Exec(init.env, fed, init.stack, init.world);
      if r.Next? {
        ExecOne(init.env, Operation(RETURN), r.stack, r.world);
        ExecReturn(init.env, r.stack, r.world);
        if |r.stack| >= 2 {
          PopPop(init.env, r.stack, r.world);
          ExecConcat(init.env, tail, [Operation(STOP)], r.stack, r.world);
          ExecOne(init.env, Operation(STOP), Drop(r.stack, 2), r.world);
          ExecStop(init.env, Drop(r.stack, 2), r.world);
        }
      }
    }
  }

  lemma ExecReturn(env: Env, stack: seq<Word>, w: World)
    ensures ExecItem(env, Operation(RETURN), stack, w) ==
            if |stack| < 2 then Fail
            else Halt(Stopped, ReadBytes(w.memory, stack[|stack| - 1], stack[|stack| - 2]), Drop(stack, 2), w)
  {
    hide ExecItem, Args, Drop, PureValue, HasSideEffects, RetCount, Load, Store, ReadBytes;
    ExecPlain(env, RETURN, stack, w);
    ArgsValues(stack);
  }

  // ----- the stack before and after the block -----

  /** The class of an element of the initial stack. */
  ghost predicate InitialAt(reps: seq<Expr>, h: int, id: Id)
    requires WellFormed(reps)
  {
    && -HEIGHT_LIMIT <= h < HEIGHT_LIMIT
    && id < |reps| && reps[id] == Expr(UndefinedItem(Wrap(h)), [], 0)
    && Means(reps, UndefinedItem(Wrap(h)), [], id)
  }

  ghost predicate InitialClasses(reps: seq<Expr>, initial: map<int, Id>)
    requires WellFormed(reps)
  {
    forall h | h in initial :: InitialAt(reps, h, initial[h])
  }

  lemma InitialGrows(reps: seq<Expr>, bigger: seq<Expr>, initial: map<int, Id>)
    requires WellFormed(reps) && WellFormed(bigger) && reps <= bigger && InitialClasses(reps, initial)
    ensures InitialClasses(bigger, initial)
  {
    hide Means;
    forall h | h in initial
      ensures InitialAt(bigger, h, initial[h])
    {
      assert InitialAt(reps, h, initial[h]);
      MeansGrows(reps, bigger, UndefinedItem(Wrap(h)), [], initial[h]);
    }
  }

  lemma InitialStarts(reps: seq<Expr>, lo: int, initial: map<int, Id>)
    requires WellFormed(reps) && InitialClasses(reps, initial) && Contiguous(initial, lo, 0)
    ensures Starts(reps, lo, initial)
  {
    hide Means, ValidInit, Nu;
    forall h | h in initial
      ensures initial[h] < |reps| && !IsStoreItem(reps[initial[h]].item)
    {
      assert InitialAt(reps, h, initial[h]);
    }
    forall init | ValidInit(init) && Deep(init, lo)
      ensures StackAgrees(Nu(init, reps), init.stack, 0, initial, init.stack)
    {
      forall h | h in initial
        ensures ElementAgrees(Nu(init, reps), init.stack, init.stack, h, initial[h])
      {
        assert InitialAt(reps, h, initial[h]);
        UndefinedIs(init, reps, h, initial[h]);
      }
      forall i | 0 <= i < |init.stack|
        ensures i - |init.stack| + 1 in initial || Untouched(init.stack, init.stack, i)
      {
      }
    }
  }

  /** The lowest height the block has looked at. */
  ghost predicate Lowest(k: Knowledge, lo: int) {
    && lo <= k.height + 1
    && (forall h | h in k.stack :: lo <= h)
    && (lo == k.height + 1 || lo in k.stack)
  }

  lemma ReachesDown(init: Init, k: Knowledge, lo: int, stack: seq<Word>, w: World)
    requires KnowledgeOk(k) && Lowest(k, lo) && Agrees(init, k, stack, w)
    ensures Deep(init, lo) && |stack| >= k.height - lo + 1
  {
    hide Nu, WorldOf, ContentAgrees, Chronological, ContentBelow;
    if lo != k.height + 1 {
      assert ElementAgrees(Nu(init, k.reps), init.stack, stack, lo, k.stack[lo]);
    }
  }

  lemma SameStack(nu: seq<Word>, base: seq<Word>, height: int, elements: map<int, Id>, s: seq<Word>, s': seq<Word>)
    requires IdsBelow(elements, |nu|)
    requires StackAgrees(nu, base, height, elements, s) && StackAgrees(nu, base, height, elements, s')
    ensures s == s'
  {
    forall i | 0 <= i < |s|
      ensures s[i] == s'[i]
    {
      var h := i - |base| + 1;
      if h in elements {
        assert ElementAgrees(nu, base, s, h, elements[h]) && ElementAgrees(nu, base, s', h, elements[h]);
      } else {
        assert Untouched(base, s, i) && Untouched(base, s', i);
      }
    }
  }

  /** Generated code for what is known after the items does the same as the items. */
  lemma GeneratedEquivalent(k: Knowledge, k1: Knowledge, reps: seq<Expr>, lo: int, fed: seq<Item>, items: seq<Item>)
    requires SoundKnowledge(k, fed) && Lowest(k, lo) && Refines(k, k1, k.height - lo + 1) && k1.height == k.height
    requires WellFormed(reps) && PureGrowth(k1.reps, reps) && Generated(reps, lo, k1.height, k1.stack, items)
    ensures Equivalent(fed, items)
  {
    hide Agrees, ValidInit, Exec, KnowledgeOk, WellFormed, NoMemory, Lowest;
    forall init | ValidInit(init)
      ensures EquivalentAt(init.env, fed, items, init.stack, init.world)
    {
      assert SoundAfter(init, k, fed);
      var r := Exec(init.env, fed, init.stack, init.world);
      if r.Next? {
        ReachesDown(init, k, lo, r.stack, r.world);
        assert Agrees(init, k1, r.stack, r.world);
        GrowAgrees(init, k1, reps, r.stack, r.world);
        assert GeneratedAt(init, reps, k1.height, k1.stack, items);
        SameResult(init, k1.(reps := reps), r.stack, r.world, items);
      }
    }
  }

  lemma SameResult(init: Init, k: Knowledge, stack: seq<Word>, w: World, items: seq<Item>)
    requires KnowledgeOk(k) && Agrees(init, k, stack, w) && GeneratedAt(init, k.reps, k.height, k.stack, items)
    ensures Exec(init.env, items, init.stack, init.world) == Next(stack, w)
  {
    hide StackAgrees, Nu, WorldOf, Exec, ContentAgrees, Chronological, ContentBelow;
    var r := Exec(init.env, items, init.stack, init.world);
    SameStack(Nu(init, k.reps), init.stack, k.height, k.stack, r.stack, stack);
  }

  lemma NotBreaking(item: Item, msizeImportant: bool)
    requires !BreaksBlock(item, msizeImportant)
    ensures Feedable(item) && !item.Tag?
  {
    hide HasSideEffects, ArgCount;
  }

  // ----- blocks with FREEGAS -----

  /** Only the last item of a block can leave the straight line. */
  predicate Straight(items: seq<Item>) {
    forall i | 0 <= i < |items| - 1 :: Feedable(items[i])
  }

  predicate AllExecutable(items: seq<Item>) {
    forall i | 0 <= i < |items| :: IsExecutable(items[i])
  }

  lemma OneMoreWithout(items: seq<Item>, i: nat)
    requires i < |items|
    ensures items[..i + 1] == items[..i] + [items[i]]
    ensures WithoutFreeGas(items[..i + 1]) == WithoutFreeGas(items[..i]) + Lasting(items[i])
  {
    assert items[..i + 1] == items[..i] + [items[i]];
    WithoutConcat(items[..i], [items[i]]);
    WithoutOne(items[i]);
  }

  lemma WithoutNothing()
    ensures WithoutFreeGas([]) == []
  {
  }

  lemma ChargeGoesOn(msizeImportant: bool)
    ensures !BreaksBlock(CHARGE, msizeImportant)
  {
  }

  lemma AllFeedable(items: seq<Item>, n: nat, msizeImportant: bool)
    requires n <= |items| && forall j | 0 <= j < n :: !BreaksBlock(items[j], msizeImportant)
    ensures forall j | 0 <= j < n :: Feedable(items[j]) && !items[j].Tag?
  {
    hide BreaksBlock, Feedable;
    forall j | 0 <= j < n
      ensures Feedable(items[j]) && !items[j].Tag?
    {
      NotBreaking(items[j], msizeImportant);
    }
  }

  lemma FeedableGoesOn(env: Env, item: Item, stack: seq<Word>, w: World)
    requires Feedable(item)
    ensures var r := ExecItem(env, item, stack, w); r.Next? || r.Fail?
  {
    hide ReadBytes, PureValue, Load, Store, ArgCount, RetCount, Args, Drop, SwapTop;
  }

  /** From a stack that is deep enough, every FREEGAS of an executable block charges. */
  lemma {:induction false} AllCharged(items: seq<Item>, stack: seq<Word>, w: World)
    requires Straight(items) && AllExecutable(items) && |stack| >= 17 * |items|
    ensures var r := Exec(Counting(), items, stack, w);
            && !r.Fail? && r.world.outside >= w.outside
            && (!NoFreeGas(items) ==> r.world.outside > w.outside)
  {
    hide ExecItem, Counting, Feedable, IsExecutable;
    if items != [] {
      var rest := items[1..];
      CountedItem(items[0], stack, w);
      var r := ExecItem(Counting(), items[0], stack, w);
      assert IsExecutable(items[0]);
      if r.Next? {
        assert forall i | 0 <= i < |rest| :: rest[i] == items[i + 1];
        AllCharged(rest, r.stack, r.world);
      } else {
        assert rest != [] ==> Feedable(items[0]);
        if rest != [] {
          FeedableGoesOn(Counting(), items[0], stack, w);
        }
      }
    }
  }

  /** Leaving out FREEGAS is noticed exactly if the block can be executed. */
  lemma DropsCharges(original: seq<Item>, after: seq<Item>)
    requires Straight(original) && NoFreeGas(after) && Equivalent(WithoutFreeGas(original), after)
    ensures Equivalent(original, after) <==> NoFreeGas(original) || !AllExecutable(original)
  {
    hide Straight, Equivalent;
    WithoutIsClean(original);
    if !AllExecutable(original) {
      NeverExecutes(original, after);
    } else if !NoFreeGas(original) {
      NotEquivalent(original, after);
    }
  }

  lemma CountingIsValid(init: Init)
    requires init.env == Counting()
    ensures ValidInit(init)
  {
  }

  lemma NotEquivalent(original: seq<Item>, after: seq<Item>)
    requires Straight(original) && AllExecutable(original) && !NoFreeGas(original) && NoFreeGas(after)
    ensures !Equivalent(original, after)
  {
    hide Straight, AllExecutable, NoFreeGas, Exec, Counting, EmptyWorld, ValidInit;
    var stack: seq<Word> := seq(17 * |original|, i => 0);
    var w := EmptyWorld();
    var init := Init(Counting(), stack, w);
    AllCharged(original, stack, w);
    NeverCharged(after, stack, w);
    CountingIsValid(init);
    assert !EquivalentAt(init.env, original, after, init.stack, init.world);
  }

  /** A block with an undefined instruction or item fails in any case, if nothing before it leaves the block. */
  lemma NeverExecutes(original: seq<Item>, after: seq<Item>)
    requires Straight(original) && !AllExecutable(original)
    ensures Equivalent(original, after)
  {
    hide Exec, ValidInit, Straight, AllExecutable;
    forall init | ValidInit(init)
      ensures EquivalentAt(init.env, original, after, init.stack, init.world)
    {
      AlwaysFails(init.env, original, init.stack, init.world);
    }
  }

  lemma {:induction false} AlwaysFails(env: Env, items: seq<Item>, stack: seq<Word>, w: World)
    requires Straight(items) && !AllExecutable(items)
    ensures Exec(env, items, stack, w).Fail?
  {
    hide ExecOperation, Feedable, IsValidInstruction, ArgCount, PureValue;
    var rest := items[1..];
    var r := ExecItem(env, items[0], stack, w);
    if IsExecutable(items[0]) {
      assert !AllExecutable(rest) by {
        var i :| 0 <= i < |items| && !IsExecutable(items[i]);
        assert rest[i - 1] == items[i];
      }
      assert Feedable(items[0]);
      FeedableGoesOn(env, items[0], stack, w);
      assert forall i | 0 <= i < |rest| :: rest[i] == items[i + 1];
      if r.Next? {
        AlwaysFails(env, rest, r.stack, r.world);
      }
    }
  }

  /** The end of a function with the modifier `freegas`. */
  const FREEGAS_RETURN: seq<Item> := [CHARGE, Operation(JUMP)]

  /** What the eliminator leaves of it does not charge the contract. */
  lemma ChargeIsLost()
    ensures WithoutFreeGas(FREEGAS_RETURN) == [Operation(JUMP)]
    ensures !Equivalent(FREEGAS_RETURN, [Operation(JUMP)])
  {
    hide Equivalent;
    assert FREEGAS_RETURN == [CHARGE] + [Operation(JUMP)];
    WithoutConcat([CHARGE], [Operation(JUMP)]);
    WithoutOne(CHARGE);
    WithoutOne(Operation(JUMP));
    ChargeGoesOn(false);
    ChargeShape();
    assert FREEGAS_RETURN[0] == CHARGE;
    assert AllExecutable(FREEGAS_RETURN);
    NotEquivalent(FREEGAS_RETURN, [Operation(JUMP)]);
  }

  // ----- the elements of the initial stack -----

  /** The block has looked at the height, or has gone below it. */
  predicate Touched(k: Knowledge, h: int) {
    h <= 0 && (h > k.height || exists x :: x in k.stack && x <= h)
  }

  ghost predicate InputAt(k: Knowledge, e: Expr) {
    exists h :: Touched(k, h) && e == Expr(UndefinedItem(Wrap(h)), [], 0)
  }

  /** Only elements of the initial stack that the block has looked at have classes. */
  ghost predicate InputsKnown(k: Knowledge, x: map<Expr, Id>) {
    forall e | e in x && e.item.UndefinedItem? :: InputAt(k, e)
  }

  /** Looking further and changing the stack above. */
  lemma TouchedStays(k: Knowledge, k': Knowledge, h: int)
    requires Touched(k, h)
    requires forall x | x in k.stack :: x in k'.stack || x > k'.height
    requires forall x | k.height < x <= k'.height :: x in k'.stack
    ensures Touched(k', h)
  {
    if h <= k'.height {
      if h > k.height {
        assert h in k'.stack;
      } else {
        var x :| x in k.stack && x <= h;
        assert x in k'.stack;
      }
    }
  }

  lemma InputsStay(k: Knowledge, k': Knowledge, x: map<Expr, Id>)
    requires InputsKnown(k, x)
    requires forall h | h in k.stack :: h in k'.stack || h > k'.height
    requires forall h | k.height < h <= k'.height :: h in k'.stack
    ensures InputsKnown(k', x)
  {
    hide Touched, Wrap;
    forall e | e in x && e.item.UndefinedItem?
      ensures InputAt(k', e)
    {
      var h :| Touched(k, h) && e == Expr(UndefinedItem(Wrap(h)), [], 0);
      TouchedStays(k, k', h);
    }
  }

  /** New elements are those that become known. */
  lemma InputsLearnt(k: Knowledge, k1: Knowledge, x: map<Expr, Id>, y: map<Expr, Id>)
    requires InputsKnown(k, x) && Learns(x, y, k.stack, k1.stack) && k1.height == k.height
    requires (forall h | h in k1.stack :: h <= k1.height) && forall h | 0 < h <= k.height :: h in k.stack
    ensures InputsKnown(k1, y)
  {
    hide Wrap;
    InputsStay(k, k1, x);
    forall e | e in y && e.item.UndefinedItem?
      ensures InputAt(k1, e)
    {
      if e !in x {
        var h :| h in k1.stack && h !in k.stack && e == Expr(UndefinedItem(Wrap(h)), [], 0);
        assert Touched(k1, h);
      }
    }
  }

  lemma InputsQuiet(k: Knowledge, x: map<Expr, Id>, y: map<Expr, Id>)
    requires InputsKnown(k, x) && NoInputs(x, y)
    ensures InputsKnown(k, y)
  {
    hide InputAt;
  }

  lemma InputsSeen(k: Knowledge, k1: Knowledge, x: map<Expr, Id>, y: map<Expr, Id>)
    requires InputsKnown(k, x) && Learns(x, y, k.stack, k1.stack) && k1.height == k.height && KnowledgeOk(k) && KnowledgeOk(k1)
    ensures InputsKnown(k1, y)
  {
    hide InputsKnown, Learns, WellFormed, Chronological, ContentBelow, IdsBelow;
    InputsLearnt(k, k1, x, y);
  }

  lemma NoInputsYet(k: Knowledge)
    ensures InputsKnown(k, map[])
  {
  }

  /** Whatever is fed, only elements that have been looked at have classes. */
  lemma FedInputs(k: Knowledge, k': Knowledge, x: map<Expr, Id>, y: map<Expr, Id>, item: Item, r: Option<StoreOperation>)
    requires WellFormed(k'.reps) && InputsKnown(k, x) && FedAs(k, k', x, y, item, r)
    ensures InputsKnown(k', y)
  {
    hide InputsKnown, StepOn, Looked, Learns, WellFormed;
    var k1 :| Sees(x, y, k, k1) && StepOn(k1, k', y, item, r);
    InputsLearnt(k, k1, x, y);
    StepStack(k1, k', y, item, r);
    InputsStay(k1, k', y);
  }

  lemma StepStack(k: Knowledge, k': Knowledge, y: map<Expr, Id>, item: Item, r: Option<StoreOperation>)
    requires WellFormed(k'.reps) && StepOn(k, k', y, item, r)
    ensures forall h | h in k.stack :: h in k'.stack || h > k'.height
    ensures forall h | k.height < h <= k'.height :: h in k'.stack
  {
    hide RecordedAs, ForgetsOnly, Read, Wrote, WellFormed, ArgumentsKnown, ArgCount;
  }

  ghost predicate InputWithin(lo: int, e: Expr) {
    exists h :: lo <= h <= 0 && e == Expr(UndefinedItem(Wrap(h)), [], 0)
  }

  /** All elements that have classes lie between the lowest height and the top. */
  ghost predicate InputsWithin(lo: int, x: map<Expr, Id>) {
    forall e | e in x && e.item.UndefinedItem? :: InputWithin(lo, e)
  }

  lemma LowestInputs(k: Knowledge, x: map<Expr, Id>, lo: int)
    requires InputsKnown(k, x) && Lowest(k, lo)
    ensures InputsWithin(lo, x)
  {
    hide Wrap;
    forall e | e in x && e.item.UndefinedItem?
      ensures InputWithin(lo, e)
    {
      var h :| Touched(k, h) && e == Expr(UndefinedItem(Wrap(h)), [], 0);
      assert lo <= h <= 0;
    }
  }

  lemma InputFound(lo: int, h: int, x: map<Expr, Id>, y: map<Expr, Id>)
    requires InputsWithin(lo, x) && lo <= h <= 0
    requires NewInputs(x, y, Expr(UndefinedItem(Wrap(h)), Sorted(UndefinedItem(Wrap(h)), []), 0))
    ensures InputsWithin(lo, y)
  {
    hide Wrap;
    forall e | e in y && e.item.UndefinedItem?
      ensures InputWithin(lo, e)
    {
      assert e in x ==> InputWithin(lo, e);
    }
  }

  lemma InputLearnt(k: Knowledge, lo: int, h: int, id: Id, x: map<Expr, Id>, y: map<Expr, Id>)
    requires KnowledgeOk(k) && InputsWithin(lo, x) && lo <= h <= k.height && Learns(x, y, k.stack, k.stack[h := id])
    ensures InputsWithin(lo, y)
  {
    hide Wrap, WellFormed, Chronological, ContentBelow, IdsBelow;
    forall e | e in y && e.item.UndefinedItem?
      ensures InputWithin(lo, e)
    {
      if e !in x {
        var g :| g in k.stack[h := id] && g !in k.stack && e == Expr(UndefinedItem(Wrap(g)), [], 0);
        assert g == h;
      } else {
        assert InputWithin(lo, e);
      }
    }
  }

  /** Every element of the initial stack that has a class is in the initial stack layout. */
  lemma InputsArePresent(reps: seq<Expr>, x: map<Expr, Id>, lo: int, initial: map<int, Id>)
    requires WellFormed(reps) && OwnClasses(reps, x) && InputsWithin(lo, x)
    requires InitialClasses(reps, initial) && Contiguous(initial, lo, 0)
    ensures InputsAmong(reps, ClassesOf(initial))
  {
    hide WellFormed, Means, Wrap;
    forall i | 0 <= i < |reps| && reps[i].item.UndefinedItem?
      ensures i in ClassesOf(initial)
    {
      assert InputWithin(lo, reps[i]);
      var h :| lo <= h <= 0 && reps[i] == Expr(UndefinedItem(Wrap(h)), [], 0);
      assert InitialAt(reps, h, initial[h]);
      ClassesDiffer(reps, x, i, initial[h]);
    }
  }

  /** There are so many classes and stack elements that some of them may be out of reach. */
  ghost predicate Crowded(k: Knowledge) {
    exists lo :: Lowest(k, lo) && |k.reps| + |k.stack| - lo >= 16
  }

  lemma CrowdedAt(k: Knowledge, lo: int)
    requires Contiguous(k.stack, lo, k.height) && lo <= k.height + 1 && |k.reps| + |k.stack| - lo >= 16
    ensures Crowded(k)
  {
    assert Lowest(k, lo);
  }

  // ----- the eliminator -----

  class CommonSubexpressionEliminator {
    const classes: ExpressionClasses
    const state: KnownState
    /** The stores of the block, in their order. */
    var storeOperations: seq<StoreOperation>
    /** The item that ends the block, if there is one. */
    var breakingItem: Option<Item>
    /** The items that were fed, including the one that ends the block. */
    ghost var original: seq<Item>

    ghost predicate Valid()
      reads this, state, classes
    {
      && state.classes == classes && state.Valid() && state.Neat()
      && StoreList(classes.representatives, storeOperations)
      && Equivalent(WithoutFreeGas(original), state.fed + Breaking(breakingItem))
      && TagAtEnd(original, breakingItem) && Straight(original) && breakingItem != Some(CHARGE)
      && OnlyPushes(Breaking(breakingItem), classes.pushed) && Tracked()
    }

    ghost predicate Tracked()
      reads state, classes
    {
      state.classes == classes && InputsKnown(state.Now(), classes.expressions)
    }

    constructor (ghost pushed: iset<Item>)
      ensures Valid() && fresh(classes) && fresh(state) && original == [] && state.fed == [] && breakingItem == None
      ensures state.stackHeight == 0 && state.stackElements == map[]
      ensures classes.pushed == pushed
    {
      var c := new ExpressionClasses(pushed);
      classes := c;
      state := new KnownState(c);
      storeOperations := [];
      breakingItem := None;
      original := [];
      new;
      NoInputsYet(state.Now());
      EquivalentReflexive([]);
    }

    method FeedItem(item: Item) returns (r: Result<()>)
      requires state.classes == classes && state.Valid() && StoreList(classes.representatives, storeOperations)
      requires Feedable(item) && MayPush(item, classes.pushed)
      modifies `storeOperations, state, classes
      ensures r.Success? ==>
                && state.Valid() && StoreList(classes.representatives, storeOperations)
                && state.fed == old(state.fed) + Lasting(item)
      ensures r.Success? && old(state.Neat()) ==> state.Neat()
      ensures r.Success? && old(Tracked()) ==> Tracked()
      ensures r.Success? ==> ReachGrows(old(state.stackHeight), old(state.stackElements), state.stackHeight, state.stackElements, 17)
      ensures r.Failure? ==> r.error == Overflow && TooHigh(old(state.stackHeight), old(state.stackElements), 17)
    {
      hide InputsKnown, FedAs, WellFormed, OwnClasses, Tidy, KnownValues, TableOk, KnowledgeOk, SoundKnowledge, StoreList, Reported, Reach, ReachGrows, TooHigh;
      ghost var k, known := state.Now(), classes.expressions;
      ghost var reps := classes.representatives;
      var op :- state.FeedItem(item);
      TableWellFormed(classes.representatives, classes.expressions);
      if InputsKnown(k, known) {
        FedInputs(k, state.Now(), known, classes.expressions, item, op);
      }
      StoreListNext(reps, classes.representatives, storeOperations, op);
      if op.Some? {
        storeOperations := storeOperations + [op.value];
      }
      r := Success(());
    }

    /** Feeds items up to the end of the block; the result is the number of items taken. */
    method FeedItems(items: seq<Item>, msizeImportant: bool) returns (r: Result<nat>)
      requires Valid() && original == [] && state.fed == [] && breakingItem == None
      requires forall i | 0 <= i < |items| :: MayPush(items[i], classes.pushed)
      modifies this, state, classes
      ensures r.Success? ==>
                && Valid() && r.value <= |items| && original == items[..r.value]
                && (items != [] ==> r.value > 0)
                && (forall j | 0 <= j < r.value - |Breaking(breakingItem)| :: !BreaksBlock(items[j], msizeImportant))
                && (breakingItem.None? ==> r.value == |items|)
                && (breakingItem.Some? ==> r.value > 0 && breakingItem.value == items[r.value - 1] && BreaksBlock(items[r.value - 1], msizeImportant))
      ensures r.Success? ==> ReachGrows(old(state.stackHeight), old(state.stackElements), state.stackHeight, state.stackElements, 17 * r.value)
      ensures r.Failure? ==> r.error == Overflow && TooHigh(old(state.stackHeight), old(state.stackElements), 17 * |items|)
    {
      hide InputsKnown, OwnClasses, Tidy, KnownValues, TableOk, KnowledgeOk, SoundKnowledge, StoreList, Equivalent, BreaksBlock, Feedable, WithoutFreeGas, Reach, ReachGrows, TooHigh;
      WithoutNothing();
      ghost var h, s := state.stackHeight, state.stackElements;
      GrowsNot(h, s);
      var i := 0;
      while i < |items| && !BreaksBlock(items[i], msizeImportant)
        invariant 0 <= i <= |items| && breakingItem == None
        invariant state.Valid() && state.Neat() && Tracked() && StoreList(classes.representatives, storeOperations)
        invariant state.fed == WithoutFreeGas(items[..i]) && ReachGrows(h, s, state.stackHeight, state.stackElements, 17 * i)
        invariant forall j | 0 <= j < i :: !BreaksBlock(items[j], msizeImportant)
      {
        NotBreaking(items[i], msizeImportant);
        ghost var h1, s1 := state.stackHeight, state.stackElements;
        var fed := FeedItem(items[i]);
        if fed.Failure? {
          TooHighLater(h, s, h1, s1, 17 * i, 17);
          TooHighMore(h, s, 17 * i + 17, 17 * |items|);
          return Failure(fed.error);
        }
        GrowsAdd(h, s, h1, s1, state.stackHeight, state.stackElements, 17 * i, 17);
        OneMoreWithout(items, i);
        i := i + 1;
      }
      if i < |items| {
        breakingItem := Some(items[i]);
        OneMoreWithout(items, i);
        ChargeGoesOn(msizeImportant);
        GrowsAddTo(h, s, state.stackHeight, state.stackElements, 17 * i, 17 * (i + 1));
        i := i + 1;
      } else {
        assert WithoutFreeGas(items[..i]) + [] == WithoutFreeGas(items[..i]);
      }
      original := items[..i];
      AllFeedable(items, i - |Breaking(breakingItem)|, msizeImportant);
      EquivalentReflexive(WithoutFreeGas(original));
      r := Success(i);
    }

    /** Nothing is known about the element below the top that would decide a jump. */
    ghost predicate Undecided(jump: bool)
      requires TableOk(classes.representatives, classes.expressions)
      reads state, classes
    {
      exists c: Id :: HoldsAt(state.stackElements, state.stackHeight - 1, c) && c < |classes.representatives|
               && classes.representatives[c].item != Push(0)
               && (jump ==> TestedNonZero(classes.representatives, c, false))
    }

    /** Tries to optimise the item that ends the block. */
    method OptimizeBreakingItem() returns (r: Result<()>)
      requires Valid()
      modifies this, state, classes
      ensures original == old(original)
      ensures r.Success? ==> Valid()
      ensures r.Success? ==> ReachGrows(old(state.stackHeight), old(state.stackElements), state.stackHeight, state.stackElements, 35)
      ensures r.Failure? ==> r.error == Overflow && TooHigh(old(state.stackHeight), old(state.stackElements), 35)
      ensures r.Success? && old(breakingItem) == Some(Operation(JUMPI)) ==>
                || (breakingItem == Some(Operation(JUMP)) && state.fed == old(state.fed) + TWO_ELEMENTS + [Operation(SWAP1)] + [Operation(POP)])
                || (breakingItem == None && state.fed == old(state.fed) + TWO_ELEMENTS + [Operation(POP)] + [Operation(POP)])
                || (breakingItem == old(breakingItem) && state.fed == old(state.fed) + TWO_ELEMENTS && Undecided(true))
      ensures r.Success? && old(breakingItem) == Some(Operation(RETURN)) ==>
                || (breakingItem == Some(Operation(STOP)) && state.fed == old(state.fed) + TWO_ELEMENTS + [Operation(POP)] + [Operation(POP)])
                || (breakingItem == old(breakingItem) && state.fed == old(state.fed) + TWO_ELEMENTS && Undecided(false))
      ensures r.Success? && old(breakingItem) != Some(Operation(JUMPI)) && old(breakingItem) != Some(Operation(RETURN)) ==>
                breakingItem == old(breakingItem) && state.fed == old(state.fed)
    {
      hide InputsKnown, OwnClasses, Tidy, KnownValues, TableOk, KnowledgeOk, SoundKnowledge, StoreList, Equivalent, Refines, SecondZero, TWO_ELEMENTS, TestedNonZero, WithoutFreeGas, Straight, TagsFrom, SizesRecorded, Feedable, Reach, ReachGrows, TooHigh;
      r := Success(());
      ghost var h, s := state.stackHeight, state.stackElements;
      GrowsNot(h, s);
      GrowsAddTo(h, s, h, s, 0, 35);
      if breakingItem == Some(Operation(JUMPI)) {
        ghost var fed := state.fed;
        var condition := LookAtSecond();
        if condition.Failure? {
          TooHighMore(h, s, 1, 35);
          return Failure(condition.error);
        }
        ghost var h1, s1 := state.stackHeight, state.stackElements;
        GrowsAddTo(h, s, h1, s1, 1, 35);
        var nonZero := TestNonZero(condition.value, fed);
        if nonZero {
          AlwaysJumps(fed);
          r := FeedThenPop(SWAP1);
          if r.Failure? {
            TooHighLater(h, s, h1, s1, 1, 34);
            return;
          }
          GrowsAdd(h, s, h1, s1, state.stackHeight, state.stackElements, 1, 34);
          breakingItem := Some(Operation(JUMP));
          EquivalentTransitive(WithoutFreeGas(original), fed + [Operation(JUMPI)], state.fed + [Operation(JUMP)]);
        } else if classes.KnownZero(condition.value) {
          SecondIsZero(condition.value, fed);
          NeverJumps(fed);
          r := FeedThenPop(POP);
          if r.Failure? {
            TooHighLater(h, s, h1, s1, 1, 34);
            return;
          }
          GrowsAdd(h, s, h1, s1, state.stackHeight, state.stackElements, 1, 34);
          breakingItem := None;
          assert state.fed + [] == state.fed;
          EquivalentTransitive(WithoutFreeGas(original), fed + [Operation(JUMPI)], state.fed);
        } else {
          TwoElementsBefore(fed, JUMPI);
          EquivalentTransitive(WithoutFreeGas(original), fed + [Operation(JUMPI)], state.fed + [Operation(JUMPI)]);
        }
      } else if breakingItem == Some(Operation(RETURN)) {
        ghost var fed := state.fed;
        var size := LookAtSecond();
        if size.Failure? {
          TooHighMore(h, s, 1, 35);
          return Failure(size.error);
        }
        ghost var h1, s1 := state.stackHeight, state.stackElements;
        GrowsAddTo(h, s, h1, s1, 1, 35);
        if classes.KnownZero(size.value) {
          SecondIsZero(size.value, fed);
          ReturnsNothing(fed);
          r := FeedThenPop(POP);
          if r.Failure? {
            TooHighLater(h, s, h1, s1, 1, 34);
            return;
          }
          GrowsAdd(h, s, h1, s1, state.stackHeight, state.stackElements, 1, 34);
          breakingItem := Some(Operation(STOP));
          EquivalentTransitive(WithoutFreeGas(original), fed + [Operation(RETURN)], state.fed + [Operation(STOP)]);
        } else {
          TwoElementsBefore(fed, RETURN);
          EquivalentTransitive(WithoutFreeGas(original), fed + [Operation(RETURN)], state.fed + [Operation(RETURN)]);
        }
      }
    }

    /** Feeds an instruction and a POP. */
    method FeedThenPop(op: Opcode) returns (r: Result<()>)
      requires state.classes == classes && state.Valid() && StoreList(classes.representatives, storeOperations)
      requires op == SWAP1 || op == POP
      modifies `storeOperations, state, classes
      ensures r.Success? ==>
                && state.Valid() && StoreList(classes.representatives, storeOperations)
                && state.fed == old(state.fed) + [Operation(op)] + [Operation(POP)]
      ensures r.Success? && old(state.Neat()) ==> state.Neat()
      ensures r.Success? && old(Tracked()) ==> Tracked()
      ensures r.Success? ==> ReachGrows(old(state.stackHeight), old(state.stackElements), state.stackHeight, state.stackElements, 34)
      ensures r.Failure? ==> r.error == Overflow && TooHigh(old(state.stackHeight), old(state.stackElements), 34)
    {
      hide InputsKnown, OwnClasses, Tidy, KnownValues, TableOk, KnowledgeOk, SoundKnowledge, StoreList, Reach, ReachGrows, TooHigh;
      ghost var h, s := state.stackHeight, state.stackElements;
      r := FeedItem(Operation(op));
      if r.Failure? {
        TooHighMore(h, s, 17, 34);
        return;
      }
      ghost var h1, s1 := state.stackHeight, state.stackElements;
      r := FeedItem(Operation(POP));
      if r.Failure? {
        TooHighLater(h, s, h1, s1, 17, 17);
      } else {
        GrowsAdd(h, s, h1, s1, state.stackHeight, state.stackElements, 17, 17);
      }
    }

    /** The class of the element below the top of the stack. */
    method LookAtSecond() returns (r: Result<Id>)
      requires state.classes == classes && state.Valid() && StoreList(classes.representatives, storeOperations)
      modifies state, classes
      ensures r.Success? ==>
                && state.Valid() && StoreList(classes.representatives, storeOperations)
                && state.fed == old(state.fed) + TWO_ELEMENTS
                && HoldsAt(state.stackElements, state.stackHeight - 1, r.value)
                && r.value < |classes.representatives|
      ensures r.Success? && old(state.Neat()) ==> state.Neat()
      ensures r.Success? && old(Tracked()) ==> Tracked()
      ensures r.Success? ==> ReachGrows(old(state.stackHeight), old(state.stackElements), state.stackHeight, state.stackElements, 1)
      ensures r.Failure? ==> r.error == Overflow && TooHigh(old(state.stackHeight), old(state.stackElements), 1)
    {
      hide InputsKnown, Learns, OwnClasses, Reach, ReachGrows, TooHigh, Tidy, KnownValues, TableOk, SoundKnowledge, StoreList, Refines, TWO_ELEMENTS, Chronological, ContentBelow;
      ghost var k, known := state.Now(), classes.expressions;
      LooksFromStart(k.height, k.stack, 1);
      var id := state.StackElement(state.stackHeight - 1);
      if id.Failure? {
        LookFails(k.height, k.stack, k.height - 1, 1);
        return Failure(id.error);
      }
      LookedAt(k.height, k.stack, k.stack, k.height - 1, id.value, 1);
      if InputsKnown(k, known) {
        InputsSeen(k, state.Now(), known, classes.expressions);
      }
      TwoElementsSound(k, state.Now(), state.fed);
      ReportedPure(k.reps, classes.representatives);
      StoreListNext(k.reps, classes.representatives, storeOperations, None);
      state.fed := state.fed + TWO_ELEMENTS;
      r := Success(id.value);
    }

    method TestNonZero(id: Id, ghost fed: seq<Item>) returns (r: bool)
      requires state.classes == classes && state.Valid() && StoreList(classes.representatives, storeOperations)
      requires id < |classes.representatives| && HoldsAt(state.stackElements, state.stackHeight - 1, id)
      requires state.fed == fed + TWO_ELEMENTS
      modifies classes
      ensures state.Valid() && StoreList(classes.representatives, storeOperations)
      ensures id < |classes.representatives| && TestedNonZero(classes.representatives, id, r)
      ensures r ==> SecondZero(fed, false)
      ensures old(state.Neat()) ==> state.Neat()
      ensures old(Tracked()) ==> Tracked()
    {
      hide InputsKnown, Remembers, NoInputs, OwnClasses, Tidy, KnownValues, TableOk, KnowledgeOk, SoundKnowledge, StoreList, Refines, TWO_ELEMENTS, NoMemory, AlwaysNonZero, SecondZero, TestedNonZero;
      ghost var k, known := state.Now(), classes.expressions;
      HeldValue(k, state.stackHeight - 1, id);
      r := classes.KnownNonZero(id);
      KnownValuesGrow(k, classes.representatives);
      TableWellFormed(classes.representatives, classes.expressions);
      if InputsKnown(k, known) {
        InputsQuiet(k, known, classes.expressions);
        InputsStay(k, state.Now(), classes.expressions);
      }
      GrowRefines(k, classes.representatives);
      GrowKnowledge(k, classes.representatives);
      RefinedSound(k, state.Now(), state.fed);
      ReportedPure(k.reps, classes.representatives);
      StoreListNext(k.reps, classes.representatives, storeOperations, None);
      if r {
        SecondKnown(state.Now(), fed, id, false);
      }
    }

    lemma SecondIsZero(id: Id, fed: seq<Item>)
      requires state.classes == classes && state.Valid() && id < |classes.representatives|
      requires HoldsAt(state.stackElements, state.stackHeight - 1, id) && classes.KnownZero(id)
      requires state.fed == fed + TWO_ELEMENTS
      ensures SecondZero(fed, true)
    {
      hide OwnClasses, TableOk, KnowledgeOk, SoundKnowledge, TWO_ELEMENTS;
      TableWellFormed(classes.representatives, classes.expressions);
      ConstantIs(classes.representatives, id);
      SecondKnown(state.Now(), fed, id, true);
    }

    /** The resulting items after optimisation: they do what the fed items do when every FREEGAS is
        left out, so that they do what the fed items do exactly if there was no FREEGAS among them (or
        the block cannot be executed at all). */
    method GetOptimizedItems() returns (r: Result<seq<Item>>)
      requires Valid()
      modifies this, state, classes
      ensures original == old(original)
      ensures r.Success? ==> NoFreeGas(r.value) && Equivalent(WithoutFreeGas(original), r.value)
      ensures r.Success? ==> (Equivalent(original, r.value) <==> NoFreeGas(original) || !AllExecutable(original))
      ensures r.Success? ==> Rewriting.TagsKept(Rewriting.Piece(original, r.value)) && OnlyPushes(r.value, classes.pushed)
      ensures r.Success? ==> exists code :: r.value == code + Breaking(breakingItem) && EachOnce(classes.representatives, code) && LeavesOnce(code)
      ensures r.Failure? ==> (r.error == StackTooDeep && Crowded(state.Now())) || (r.error == Overflow && TooHigh(old(state.stackHeight), old(state.stackElements), 36))
    {
      hide EachOnce, LeavesOnce, OwnClasses, Tidy, KnownValues, TableOk, KnowledgeOk, SoundKnowledge, StoreList, Equivalent, TagAtEnd, Straight, AllExecutable, Reach, ReachGrows, TooHigh;
      ghost var h, s := state.stackHeight, state.stackElements;
      var ended := OptimizeBreakingItem();
      if ended.Failure? {
        TooHighMore(h, s, 35, 36);
        return Failure(ended.error);
      }
      ghost var h1, s1 := state.stackHeight, state.stackElements;
      r := Regenerate();
      if r.Failure? {
        if r.error == Overflow {
          TooHighLater(h, s, h1, s1, 35, 1);
        }
        return;
      }
      var items := r.value;
      EquivalentExtended(state.fed, items, Breaking(breakingItem));
      EquivalentTransitive(WithoutFreeGas(original), state.fed + Breaking(breakingItem), items + Breaking(breakingItem));
      TagStays(original, items, breakingItem);
      r := Success(items + Breaking(breakingItem));
      DropsCharges(original, r.value);
    }

    /** Generates code anew for everything before the item that ends the block. */
    method Regenerate() returns (r: Result<seq<Item>>)
      requires Valid()
      modifies state, classes
      ensures r.Success? ==> state.fed == old(state.fed) && Equivalent(state.fed, r.value) && Rewriting.NoTags(r.value) && NoFreeGas(r.value)
      ensures r.Success? ==> OnlyPushes(r.value, classes.pushed) && EachOnce(classes.representatives, r.value) && LeavesOnce(r.value)
      ensures r.Failure? ==> (r.error == StackTooDeep && Crowded(state.Now())) || (r.error == Overflow && TooHigh(old(state.stackHeight), old(state.stackElements), 1))
      ensures state.classes == classes
    {
      hide InputsKnown, InputsWithin, InputsAmong, EachOnce, LeavesOnce, OwnClasses, TableOk, KnowledgeOk, SoundKnowledge, StoreList, Equivalent, Refines, PureGrowth, Starts, InitialClasses, Contiguous, StoresOf, Grouped, Ascending, Tidy, StackValues, ContentValues;
      ghost var k := state.Now();
      var lo := MinHeight();
      LowestTooHigh(k, lo);
      LowestInputs(k, classes.expressions, lo);
      var initial :- InitialStack(lo);
      ghost var k0 := state.Now();
      var target :- TargetStack(lo);
      ghost var k1 := state.Now();
      PrepareStores(k.reps, k0.reps, k1.reps, k1.seqNr, storeOperations, k1);
      PrepareStack(k, k0, k1, lo, initial);
      InputsArePresent(k1.reps, classes.expressions, lo, initial);
      var generator := new CodeGenerator(classes, storeOperations);
      var generated := generator.GenerateCode(1, initial, target, lo, state.stackHeight, state.sequenceNumber);
      if generated.Failure? {
        CrowdedAt(state.Now(), lo);
        return Failure(generated.error);
      }
      var items := generated.value;
      TableWellFormed(classes.representatives, classes.expressions);
      GeneratedEquivalent(k, k1, classes.representatives, lo, state.fed, items);
      r := Success(items);
    }

    /** The lowest height that the block has looked at. */
    method MinHeight() returns (lo: int)
      requires state.Ok()
      ensures Lowest(state.Now(), lo)
    {
      hide OwnClasses, TableOk, Chronological, ContentBelow;
      lo := state.stackHeight + 1;
      if |state.stackElements.Keys| > 0 {
        var lowest := MinOf(state.stackElements.Keys);
        lo := Min(lo, lowest);
      }
    }

    /** The classes of the initial stack, down to the given height. */
    method InitialStack(lo: int) returns (r: Result<map<int, Id>>)
      requires state.classes == classes && state.Ok() && Lowest(state.Now(), lo)
      modifies classes
      ensures r.Success? ==>
                && state.Ok() && PureGrowth(old(classes.representatives), classes.representatives)
                && InitialClasses(classes.representatives, r.value) && Contiguous(r.value, lo, 0)
      ensures r.Success? && old(state.Neat()) ==> state.Neat()
      ensures r.Success? && InputsWithin(lo, old(classes.expressions)) ==> InputsWithin(lo, classes.expressions)
      ensures r.Failure? ==> r.error == Overflow && lo < -HEIGHT_LIMIT
    {
      hide InputsWithin, NewInputs, OwnClasses, Recorded, ArityOk, KnowledgeOk, NoMemory, InitialAt, Means, Tidy, Usable, IsValue, KnownValues, Simplest, RecordedAs, Remembers;
      ghost var k := state.Now();
      PureGrowthOne(k.reps, Expr(Push(0), [], 0));
      LowestBelow(k, lo);
      var initial: map<int, Id> := map[];
      var h := lo;
      while h <= 0
        invariant lo <= h <= 1 && state.Ok() && PureGrowth(k.reps, classes.representatives)
        invariant InitialClasses(classes.representatives, initial) && Contiguous(initial, lo, h - 1)
        invariant old(state.Neat()) ==> state.Neat()
        invariant InputsWithin(lo, old(classes.expressions)) ==> InputsWithin(lo, classes.expressions)
      {
        if h < -HEIGHT_LIMIT {
          return Failure(Overflow);
        }
        ghost var before, known := classes.representatives, classes.expressions;
        ValueList(before, []);
        var found := classes.Find(UndefinedItem(Wrap(h)), [], 0);
        if InputsWithin(lo, known) {
          InputFound(lo, h, known, classes.expressions);
        }
        KnownValuesGrow(k.(reps := before), classes.representatives);
        PureFound(before, classes.representatives, UndefinedItem(Wrap(h)), [], found);
        PureGrowthTransitive(k.reps, before, classes.representatives);
        GrowKnowledge(k, classes.representatives);
        InitialGrows(before, classes.representatives, initial);
        InitialFound(classes.representatives, h, found);
        initial := initial[h := found];
        h := h + 1;
      }
      r := Success(initial);
    }

    /** The classes of the stack after the block, from the given height on. */
    method TargetStack(lo: int) returns (r: Result<map<int, Id>>)
      requires state.classes == classes && state.Ok() && Lowest(state.Now(), lo)
      modifies state`stackElements, classes
      ensures r.Success? ==>
                && state.Ok() && PureGrowth(old(classes.representatives), classes.representatives)
                && Refines(old(state.Now()), state.Now(), state.stackHeight - lo + 1)
                && r.value == state.stackElements && Contiguous(r.value, lo, state.stackHeight)
      ensures r.Success? && old(state.Neat()) ==> state.Neat()
      ensures r.Success? && InputsWithin(lo, old(classes.expressions)) ==> InputsWithin(lo, classes.expressions)
      ensures r.Failure? ==> r.error == Overflow && (lo < -HEIGHT_LIMIT || state.stackHeight >= HEIGHT_LIMIT)
    {
      hide InputsWithin, Learns, OwnClasses, TableOk, KnowledgeOk, NoMemory, Refines, Tidy, KnownValues;
      ghost var k := state.Now();
      PureGrowthOne(k.reps, Expr(Push(0), [], 0));
      RefinesReflexive(k);
      KeysBelow(k);
      var target: map<int, Id> := map[];
      var h := lo;
      while h <= state.stackHeight
        invariant lo <= h <= state.stackHeight + 1 && state.Ok() && PureGrowth(k.reps, classes.representatives)
        invariant Refines(k, state.Now(), state.stackHeight - lo + 1) && (old(state.Neat()) ==> state.Neat())
        invariant InputsWithin(lo, old(classes.expressions)) ==> InputsWithin(lo, classes.expressions)
        invariant forall x | x in state.stackElements :: lo <= x <= state.stackHeight
        invariant forall x | lo <= x < h :: HoldsAt(state.stackElements, x, if x in target then target[x] else 0) && x in target
        invariant forall x | x in target :: lo <= x < h
      {
        ghost var before, known := state.Now(), classes.expressions;
        var id :- state.StackElement(h);
        if InputsWithin(lo, known) {
          InputLearnt(before, lo, h, id, known, classes.expressions);
        }
        PureGrowthTransitive(k.reps, before.reps, classes.representatives);
        RefinesTransitive(k, before, state.Now(), state.stackHeight - lo + 1, state.stackHeight - h + 1);
        target := target[h := id];
        h := h + 1;
      }
      assert target == state.stackElements;
      r := Success(target);
    }
  }

  /** If the lowest height does not fit 32 bits, the block has looked too far down. */
  lemma LowestTooHigh(k: Knowledge, lo: int)
    requires Lowest(k, lo)
    ensures lo < -HEIGHT_LIMIT || k.height >= HEIGHT_LIMIT ==> TooHigh(k.height, k.stack, 1)
  {
  }

  lemma LowestBelow(k: Knowledge, lo: int)
    requires KnowledgeOk(k) && Lowest(k, lo)
    ensures lo <= 1
  {
    hide WellFormed, Chronological, ContentBelow;
    if k.height >= 1 {
      assert 1 in k.stack;
    }
  }

  lemma KeysBelow(k: Knowledge)
    requires KnowledgeOk(k)
    ensures forall h | h in k.stack :: h <= k.height
  {
    hide WellFormed, Chronological, ContentBelow;
  }

  lemma InitialFound(reps: seq<Expr>, h: int, id: Id)
    requires WellFormed(reps) && Found(reps, UndefinedItem(Wrap(h)), [], 0, id) && -HEIGHT_LIMIT <= h <= 0
    ensures InitialAt(reps, h, id)
  {
    hide Means;
  }

  lemma PrepareStores(reps: seq<Expr>, reps0: seq<Expr>, reps1: seq<Expr>, seqNr: nat, ops: seq<StoreOperation>, k: Knowledge)
    requires StoreList(reps, ops) && PureGrowth(reps, reps0) && PureGrowth(reps0, reps1)
    requires KnowledgeOk(k) && k.reps == reps1 && k.seqNr == seqNr
    ensures Chronological(reps1, seqNr) && StoresOf(reps1, ops) && Ascending(ops)
  {
    hide StoreList, Chronological, StoresOf, Ascending, NoMemory, WellFormed, Reported;
    PureGrowthTransitive(reps, reps0, reps1);
    ReportedPure(reps, reps1);
    StoreListNext(reps, reps1, ops, None);
    StoreListOk(reps1, seqNr, ops);
  }

  lemma PrepareStack(k: Knowledge, k0: Knowledge, k1: Knowledge, lo: int, initial: map<int, Id>)
    requires KnowledgeOk(k) && KnowledgeOk(k0) && KnowledgeOk(k1)
    requires PureGrowth(k.reps, k0.reps) && PureGrowth(k0.reps, k1.reps) && k0 == k.(reps := k0.reps)
    requires Refines(k0, k1, k0.height - lo + 1) && Lowest(k, lo)
    requires InitialClasses(k0.reps, initial) && Contiguous(initial, lo, 0)
    ensures Refines(k, k1, k.height - lo + 1) && Starts(k1.reps, lo, initial) && IdsBelow(k1.stack, |k1.reps|)
    ensures WellFormed(k1.reps) && InitialClasses(k1.reps, initial)
  {
    hide Refines, Starts, InitialClasses, Contiguous, NoMemory, Chronological, ContentBelow, WellFormed;
    GrowRefines(k, k0.reps);
    RefinesTransitive(k, k0, k1, 0, k0.height - lo + 1);
    InitialGrows(k0.reps, k1.reps, initial);
    InitialStarts(k1.reps, lo, initial);
  }

  /** Requiring two elements in front of an item that takes two changes nothing. */
  lemma TwoElementsBefore(fed: seq<Item>, op: Opcode)
    requires op == JUMPI || op == RETURN
    ensures Equivalent(fed + [Operation(op)], fed + TWO_ELEMENTS + [Operation(op)])
  {
    hide ValidInit, Exec, TWO_ELEMENTS, ExecItem;
    assert fed + TWO_ELEMENTS + [Operation(op)] == fed + (TWO_ELEMENTS + [Operation(op)]);
    forall init | ValidInit(init)
      ensures EquivalentAt(init.env, fed + [Operation(op)], fed + (TWO_ELEMENTS + [Operation(op)]), init.stack, init.world)
    {
      ExecConcat(init.env, fed, [Operation(op)], init.stack, init.world);
      ExecConcat(init.env, fed, TWO_ELEMENTS + [Operation(op)], init.stack, init.world);
      var r := Exec(init.env, fed, init.stack, init.world);
      if r.Next? {
        ExecConcat(init.env, TWO_ELEMENTS, [Operation(op)], r.stack, r.world);
        ExecTwoElements(init.env, r.stack, r.world);
        ExecOne(init.env, Operation(op), r.stack, r.world);
        if op == JUMPI {
          ExecJumpI(init.env, r.stack, r.world);
        } else {
          ExecReturn(init.env, r.stack, r.world);
        }
      }
    }
  }

  lemma HeldValue(k: Knowledge, h: int, id: Id)
    requires HoldsAt(k.stack, h, id)
    ensures KnownValues(k) ==> IsValue(k.reps, id)
  {
    hide IsValue;
  }

  lemma TableWellFormed(reps: seq<Expr>, expressions: map<Expr, Id>)
    requires TableOk(reps, expressions)
    ensures WellFormed(reps)
  {
  }

  /** Only the last item of a block can be a tag. */
  predicate TagAtEnd(items: seq<Item>, last: Option<Item>) {
    if last.Some? && last.value.Tag? then Rewriting.EndsInTag(items) && Rewriting.LastItem(items) == last.value
    else Rewriting.NoTags(items)
  }

  lemma TagStays(original: seq<Item>, items: seq<Item>, last: Option<Item>)
    requires TagAtEnd(original, last) && Rewriting.NoTags(items)
    ensures Rewriting.TagsKept(Rewriting.Piece(original, items + Breaking(last)))
  {
    var after := items + Breaking(last);
    if last.Some? && last.value.Tag? {
      assert after[..|after| - 1] == items;
    }
  }
}
