/** The symbolic machine state that is updated item by item (libevmasm/KnownState.cpp). */
module KnownStates {
  import opened Wrappers
  import opened Words
  import opened Instructions
  import opened Items
  import opened Machine
  import opened Rules
  import opened Semantics
  import opened Classes
  import opened Knowing
  import opened FreeGas

  datatype Target = ToMemory | ToStorage

  datatype StoreOperation = StoreOperation(target: Target, slot: Id, seqNr: nat, expression: Id)

  function TargetOf(store: Opcode): Target {
    if store == SSTORE then ToStorage else ToMemory
  }

  /** The stores of a table, in their order. */
  function StoreIds(reps: seq<Expr>): seq<Id> {
    if reps == [] then []
    else
      var n := |reps| - 1;
      StoreIds(reps[..n]) + (if IsStoreItem(reps[n].item) then [n] else [])
  }

  lemma {:induction false} StoreIdsGrow(reps: seq<Expr>, bigger: seq<Expr>)
    requires reps <= bigger && NoStores(bigger[|reps|..])
    ensures StoreIds(bigger) == StoreIds(reps)
  {
    if |bigger| == |reps| {
      assert bigger == reps;
    } else {
      var n := |bigger| - 1;
      assert bigger[n] == bigger[|reps|..][n - |reps|];
      assert forall i | 0 <= i < n - |reps| :: bigger[..n][|reps|..][i] == bigger[|reps|..][i];
      StoreIdsGrow(reps, bigger[..n]);
    }
  }

  lemma StoreIdsAppend(reps: seq<Expr>, e: Expr)
    ensures StoreIds(reps + [e]) == StoreIds(reps) + (if IsStoreItem(e.item) then [|reps|] else [])
  {
    assert (reps + [e])[..|reps|] == reps;
  }

  /** The record of a store describes its class. */
  predicate Describes(reps: seq<Expr>, o: StoreOperation) {
    && o.expression < |reps|
    && var e := reps[o.expression];
       IsStoreItem(e.item) && |e.args| == 2 && o == StoreOperation(TargetOf(e.item.instr), e.args[0], e.seqNr, o.expression)
  }

  /** A new store is reported, and nothing else is. */
  predicate Reported(before: seq<Expr>, after: seq<Expr>, op: Option<StoreOperation>) {
    && before <= after
    && match op
       case None => StoreIds(after) == StoreIds(before)
       case Some(o) => Describes(after, o) && StoreIds(after) == StoreIds(before) + [o.expression]
  }

  lemma ReportedPure(before: seq<Expr>, after: seq<Expr>)
    requires PureGrowth(before, after)
    ensures Reported(before, after, None)
  {
    UnsequencedNoStores(after[|before|..]);
    StoreIdsGrow(before, after);
  }

  lemma ReportedLater(a: seq<Expr>, b: seq<Expr>, c: seq<Expr>, op: Option<StoreOperation>)
    requires PureGrowth(a, b) && Reported(b, c, op)
    ensures Reported(a, c, op)
  {
    ReportedPure(a, b);
  }

  lemma ReportedStore(reps: seq<Expr>, store: Opcode, slot: Id, value: Id, seqNr: nat)
    requires IsStore(store)
    ensures Reported(reps, reps + [Expr(Operation(store), [slot, value], seqNr)],
                     Some(StoreOperation(TargetOf(store), slot, seqNr, |reps|)))
  {
    StoreIdsAppend(reps, Expr(Operation(store), [slot, value], seqNr));
  }

  /** The class of a store is always new: its sequence number has not been used before. */
  lemma FreshStore(k: Knowledge, store: Opcode, slot: Id, value: Id, reps: seq<Expr>, id: Id)
    requires KnowledgeOk(k) && IsStore(store)
    requires Grown(k.reps, reps, Expr(Operation(store), [slot, value], k.seqNr + 1))
    requires id < |reps| && reps[id] == Expr(Operation(store), [slot, value], k.seqNr + 1)
    ensures reps == k.reps + [reps[id]] && id == |k.reps|
  {
    forall i | 0 <= i < |k.reps|
      ensures k.reps[i].seqNr <= k.seqNr
    {
      assert Sequenced(k.reps[i], k.seqNr);
    }
    assert id >= |k.reps|;
    assert reps[|k.reps|..][id - |k.reps|] == reps[id];
    assert !IsUnsequenced(reps[id]);
  }

  // ----- runs of fed items -----

  /** After the fed items, everything known holds of the concrete state (unless they fail). */
  ghost predicate SoundAfter(init: Init, k: Knowledge, fed: seq<Item>)
    requires KnowledgeOk(k)
  {
    var r := Exec(init.env, fed, init.stack, init.world);
    r.Fail? || (r.Next? && Agrees(init, k, r.stack, r.world))
  }

  ghost predicate SoundKnowledge(k: Knowledge, fed: seq<Item>) {
    KnowledgeOk(k) && forall init | ValidInit(init) :: SoundAfter(init, k, fed)
  }

  /** Nothing is known at the start. */
  lemma NothingKnown()
    ensures SoundKnowledge(Knowledge([], 0, map[], map[], map[], 1), [])
  {
    var k := Knowledge([], 0, map[], map[], map[], 1);
    forall init | ValidInit(init)
      ensures SoundAfter(init, k, [])
    {
    }
  }

  lemma RefinedSound(k: Knowledge, k': Knowledge, fed: seq<Item>)
    requires SoundKnowledge(k, fed) && Refines(k, k', 0)
    ensures SoundKnowledge(k', fed)
  {
    hide KnowledgeOk, Agrees, ValidInit, Exec;
    forall init | ValidInit(init)
      ensures SoundAfter(init, k', fed)
    {
      assert SoundAfter(init, k, fed);
    }
  }

  /** The knowledge after one more item. FREEGAS is dropped: it leaves the knowledge as it is. */
  ghost predicate Follows(k: Knowledge, k': Knowledge, item: Item) {
    if item == CHARGE then Refines(k, k', 0) else Steps(k, k', item)
  }

  lemma FedSound(k: Knowledge, k': Knowledge, fed: seq<Item>, item: Item)
    requires SoundKnowledge(k, fed) && Follows(k, k', item)
    ensures SoundKnowledge(k', fed + Lasting(item))
  {
    hide KnowledgeOk, Agrees, ValidInit, ExecItem, Exec;
    if item == CHARGE {
      assert fed + [] == fed;
      RefinedSound(k, k', fed);
      return;
    }
    forall init | ValidInit(init)
      ensures SoundAfter(init, k', fed + [item])
    {
      assert SoundAfter(init, k, fed);
      ExecConcat(init.env, fed, [item], init.stack, init.world);
      var r := Exec(init.env, fed, init.stack, init.world);
      if r.Next? {
        ExecOne(init.env, item, r.stack, r.world);
        assert StepsAt(init, k', item, r.stack, r.world);
      }
    }
  }

  lemma RefinesFollows(k: Knowledge, k1: Knowledge, k': Knowledge, n: int, item: Item)
    requires Refines(k, k1, n) && Follows(k1, k', item) && n <= Arguments(item)
    ensures Follows(k, k', item)
  {
    hide Steps, Refines;
    if item == CHARGE {
      RefinesTransitive(k, k1, k', n, 0);
    } else {
      RefinesStep(k, k1, k', n, item);
    }
  }

  lemma ConsumedNothing(k: Knowledge)
    requires KnowledgeOk(k)
    ensures Consumed(k, 0) == k
  {
    hide WellFormed, Chronological, ContentBelow;
  }

  /** Items that can be fed: everything that does not end a block (libevmasm/SemanticInformation.cpp:32-77).
      `msizeImportant` says that reading memory counts as a side effect. KECCAK256 is not followed. */
  predicate BreaksBlock(item: Item, msizeImportant: bool) {
    match item
    case UndefinedItem(_) => true
    case Tag(_) => true
    case PushDeployTimeAddress(_) => true
    case Operation(op) =>
      if IsSwap(op) || IsDup(op) then false
      else if op == GAS || op == PC || op == MSIZE then true
      else if op == SSTORE || op == MSTORE then false
      else if !msizeImportant && op == MLOAD then false
      else HasSideEffects(op) || ArgCount(op) > 2
    case _ => false
  }

  predicate Feedable(item: Item) {
    item.Tag? || !BreaksBlock(item, false)
  }

  lemma FeedableArguments(op: Opcode)
    requires !BreaksBlock(Operation(op), false) && !IsDup(op) && !IsSwap(op)
    ensures ArgCount(op) <= 2
  {
    hide HasSideEffects;
  }

  lemma PlainOperation(op: Opcode)
    requires !BreaksBlock(Operation(op), false) && !IsDup(op) && !IsSwap(op)
    requires op != POP && op != SSTORE && op != SLOAD && op != MSTORE && op != MLOAD
    ensures !HasSideEffects(op) && !IsMemoryItem(Operation(op))
    ensures RetCount(op) == 1 ==> IsPure(op)
    ensures RetCount(op) <= 1 && ArgCount(op) <= 2
  {
    hide ArgCount;
  }

  /** Setting the result first and then dropping what lies above it is consuming and pushing. */
  lemma SetThenTruncate(k: Knowledge, n: nat, id: Id)
    requires KnowledgeOk(k)
    ensures Pushed(Consumed(k, n), id) ==
            k.(height := k.height + 1 - n, stack := Truncate(k.stack[k.height + 1 - n := id], k.height + 1 - n))
  {
    hide WellFormed, Chronological, ContentBelow;
    assert Truncate(k.stack[k.height + 1 - n := id], k.height + 1 - n) == Truncate(k.stack, k.height - n)[k.height + 1 - n := id];
  }

  lemma OneMoreKnown(k: Knowledge, k': Knowledge, args: seq<Id>, id: Id)
    requires ArgumentsKnown(k, args) && k'.height == k.height && k'.stack == k.stack[k.height - |args| := id]
    ensures ArgumentsKnown(k', args + [id])
  {
    var more := args + [id];
    forall i | 0 <= i < |more|
      ensures HoldsAt(k'.stack, k'.height - i, more[i])
    {
      if i < |args| {
        assert HoldsAt(k.stack, k.height - i, args[i]);
      }
    }
  }

  lemma GrowStores(k: Knowledge, reps: seq<Expr>, k': Knowledge, store: Opcode, slot: Id, value: Id)
    requires KnowledgeOk(k) && WellFormed(reps) && PureGrowth(k.reps, reps) && slot < |k.reps| && value < |k.reps|
    requires StoresTo(k.(reps := reps), k', store, slot, value)
    ensures StoresTo(k, k', store, slot, value)
  {
    hide KnowledgeOk, Agrees, ValidInit, Store, NoMemory, WellFormed;
    OkWellFormed(k);
    forall init, stack, w | ValidInit(init) && Agrees(init, k, stack, w)
      ensures StoredAt(init, k, k', store, slot, value, stack, w)
    {
      GrowAgrees(init, k, reps, stack, w);
      assert StoredAt(init, k.(reps := reps), k', store, slot, value, stack, w);
      NuPrefix(init, k.reps, reps);
    }
  }

  lemma StoresOk(k: Knowledge, k': Knowledge, store: Opcode, slot: Id, value: Id)
    requires StoresTo(k, k', store, slot, value)
    ensures KnowledgeOk(k')
  {
  }

  lemma PushedIs(k: Knowledge, id: Id)
    ensures Pushed(k, id) == k.(height := k.height + 1, stack := k.stack[k.height + 1 := id])
  {
  }

  lemma KnownArguments(k: Knowledge, args: seq<Id>)
    requires KnowledgeOk(k) && ArgumentsKnown(k, args)
    ensures forall i | 0 <= i < |args| :: args[i] < |k.reps|
  {
    hide WellFormed, Chronological, ContentBelow;
    forall i | 0 <= i < |args|
      ensures args[i] < |k.reps|
    {
      assert HoldsAt(k.stack, k.height - i, args[i]);
    }
  }

  lemma SameTop(k: Knowledge, k': Knowledge, args: seq<Id>)
    requires ArgumentsKnown(k, args) && k'.stack == k.stack && k'.height == k.height
    ensures ArgumentsKnown(k', args)
  {
  }

  lemma LoadedBelow(k: Knowledge, load: Opcode, slot: Id)
    requires KnowledgeOk(k) && slot in ContentOf(k, load)
    ensures ContentOf(k, load)[slot] < |k.reps|
  {
    hide WellFormed, Chronological, IdsBelow;
  }

  lemma LoadArity()
    ensures Arguments(Operation(SLOAD)) == 1 && Arguments(Operation(MLOAD)) == 1
    ensures IsMemoryItem(Operation(SLOAD)) && IsMemoryItem(Operation(MLOAD))
    ensures !IsStoreItem(Operation(SLOAD)) && !IsStoreItem(Operation(MLOAD))
    ensures IsExpressible(Operation(SLOAD)) && IsExpressible(Operation(MLOAD))
  {
  }

  lemma StoreArity(store: Opcode)
    requires IsStore(store)
    ensures Arguments(Operation(store)) == 2 && IsMemoryItem(Operation(store)) && IsExpressible(Operation(store))
  {
  }

  lemma RefinesOk(k: Knowledge, k': Knowledge)
    requires Refines(k, k', 0)
    ensures KnowledgeOk(k')
  {
  }

  lemma LoadReported(k: Knowledge, load: Opcode, slot: Id, reps: seq<Expr>, id: Id)
    requires KnowledgeOk(k) && IsLoad(load) && slot < |k.reps|
    requires Grown(k.reps, reps, Expr(Operation(load), [slot], k.seqNr))
    requires id < |reps| && reps[id] == Expr(Operation(load), [slot], k.seqNr)
    ensures Reported(k.reps, reps, None)
  {
    hide KnowledgeOk, Grown, NoStores;
    NewLoad(k, load, slot, reps, id);
    StoreIdsGrow(k.reps, reps);
  }

  lemma SurvivingGrows(reps: seq<Expr>, bigger: seq<Expr>, store: Opcode, content: map<Id, Id>, kept: map<Id, Id>, slot: Id, value: Id)
    requires WellFormed(reps) && WellFormed(bigger) && reps <= bigger && Surviving(reps, store, content, kept, slot, value)
    ensures Surviving(bigger, store, content, kept, slot, value)
  {
    hide AlwaysDifferent, AlwaysApart;
    forall s | s in kept
      ensures s in content && kept[s] == content[s] && Survives(bigger, store, s, slot, content[s], value)
    {
      DifferentGrows(reps, bigger, s, slot);
    }
  }

  lemma NothingSurvives(reps: seq<Expr>, store: Opcode, content: map<Id, Id>, slot: Id, value: Id)
    requires WellFormed(reps)
    ensures Surviving(reps, store, content, map[], slot, value)
  {
  }

  lemma OneMoreSurvives(reps: seq<Expr>, store: Opcode, content: map<Id, Id>, kept: map<Id, Id>, s: Id, slot: Id, value: Id)
    requires WellFormed(reps) && Surviving(reps, store, content, kept, slot, value) && s in content
    requires Survives(reps, store, s, slot, content[s], value)
    ensures Surviving(reps, store, content, kept[s := content[s]], slot, value)
  {
    hide Survives;
  }

  lemma SurvivesStorage(reps: seq<Expr>, s: Id, slot: Id, held: Id, value: Id)
    requires WellFormed(reps) && (AlwaysDifferent(reps, s, slot) || held == value)
    ensures Survives(reps, SSTORE, s, slot, held, value)
  {
  }

  lemma SurvivesMemory(reps: seq<Expr>, s: Id, slot: Id, held: Id, value: Id)
    requires WellFormed(reps) && AlwaysApart(reps, s, slot)
    ensures Survives(reps, MSTORE, s, slot, held, value)
  {
  }

  lemma SwappedOk(k: Knowledge, n: nat)
    requires KnowledgeOk(k) && k.height in k.stack && k.height - n in k.stack
    ensures KnowledgeOk(Swapped(k, n))
    ensures Swapped(k, n) == k.(stack := k.stack[k.height := k.stack[k.height - n]][k.height - n := k.stack[k.height]])
  {
    hide WellFormed, Chronological, ContentBelow;
  }

  // ----- heights -----

  /** The block has looked at heights up to d below its start only, and the stack has not grown by more. */
  predicate Reach(height: int, stack: map<int, Id>, d: nat) {
    0 <= d + height && height <= d && forall h | h in stack :: 0 <= d + h
  }

  ghost predicate ReachGrows(height: int, stack: map<int, Id>, height': int, stack': map<int, Id>, n: nat) {
    forall d: nat | Reach(height, stack, d) :: Reach(height', stack', d + n)
  }

  /** The heights are about to leave the range of 32 bits. */
  ghost predicate TooHigh(height: int, stack: map<int, Id>, n: nat) {
    forall d: nat | Reach(height, stack, d) :: d + n >= HEIGHT_LIMIT
  }

  lemma GrowsTransitive(h: int, s: map<int, Id>, h1: int, s1: map<int, Id>, h2: int, s2: map<int, Id>, n: nat, m: nat)
    requires ReachGrows(h, s, h1, s1, n) && ReachGrows(h1, s1, h2, s2, m) && n + m <= 17
    ensures ReachGrows(h, s, h2, s2, 17)
  {
    forall d: nat | Reach(h, s, d)
      ensures Reach(h2, s2, d + 17)
    {
      assert Reach(h1, s1, d + n);
      assert Reach(h2, s2, d + n + m);
    }
  }

  lemma GrowsAdd(h: int, s: map<int, Id>, h1: int, s1: map<int, Id>, h2: int, s2: map<int, Id>, n: nat, m: nat)
    requires ReachGrows(h, s, h1, s1, n) && ReachGrows(h1, s1, h2, s2, m)
    ensures ReachGrows(h, s, h2, s2, n + m)
  {
    forall d: nat | Reach(h, s, d)
      ensures Reach(h2, s2, d + (n + m))
    {
      assert Reach(h1, s1, d + n);
      assert Reach(h2, s2, d + n + m);
    }
  }

  lemma GrowsAddTo(h: int, s: map<int, Id>, h1: int, s1: map<int, Id>, n: nat, m: nat)
    requires ReachGrows(h, s, h1, s1, n) && n <= m
    ensures ReachGrows(h, s, h1, s1, m)
  {
    forall d: nat | Reach(h, s, d)
      ensures Reach(h1, s1, d + m)
    {
      assert Reach(h1, s1, d + n);
    }
  }

  lemma TooHighLater(h: int, s: map<int, Id>, h1: int, s1: map<int, Id>, n: nat, m: nat)
    requires ReachGrows(h, s, h1, s1, n) && TooHigh(h1, s1, m)
    ensures TooHigh(h, s, n + m)
  {
    forall d: nat | Reach(h, s, d)
      ensures d + (n + m) >= HEIGHT_LIMIT
    {
      assert Reach(h1, s1, d + n);
    }
  }

  lemma TooHighAtStart(n: nat)
    requires TooHigh(0, map[], n)
    ensures n >= HEIGHT_LIMIT
  {
    assert Reach(0, map[], 0);
  }

  lemma GrowsNot(h: int, s: map<int, Id>)
    ensures ReachGrows(h, s, h, s, 0)
  {
  }

  lemma TooHighMore(h: int, s: map<int, Id>, n: nat, m: nat)
    requires TooHigh(h, s, n) && n <= m
    ensures TooHigh(h, s, m)
  {
  }

  /** Looking at an element among the topmost ones. */
  lemma LookedAt(h: int, s: map<int, Id>, s1: map<int, Id>, x: int, id: Id, n: nat)
    requires ReachGrows(h, s, h, s1, n) && h - n <= x
    ensures ReachGrows(h, s, h, s1[x := id], n)
  {
    forall d: nat | Reach(h, s, d)
      ensures Reach(h, s1[x := id], d + n)
    {
      assert Reach(h, s1, d + n);
    }
  }

  lemma LookFails(h: int, s: map<int, Id>, x: int, n: nat)
    requires h - n <= x <= h && !(-HEIGHT_LIMIT <= x < HEIGHT_LIMIT)
    ensures TooHigh(h, s, n)
  {
  }

  lemma LooksFromStart(h: int, s: map<int, Id>, n: nat)
    ensures ReachGrows(h, s, h, s, n)
  {
  }

  lemma PushGrows(h: int, s: map<int, Id>, id: Id)
    ensures ReachGrows(h, s, h + 1, s[h + 1 := id], 1)
  {
  }

  /** Exchanging elements that have been looked at. */
  lemma SwapGrows(h: int, s: map<int, Id>, n: nat)
    requires h in s && h - n in s
    ensures ReachGrows(h, s, h, s[h := s[h - n]][h - n := s[h]], 0)
  {
  }

  /** Taking n arguments off and putting at most one result on. */
  lemma ConsumeGrows(h: int, s: map<int, Id>, n: nat, id: Id)
    requires n <= 2
    ensures ReachGrows(h, s, h - n, Truncate(s, h - n), 3)
    ensures ReachGrows(h, s, h + 1 - n, Truncate(s[h + 1 - n := id], h + 1 - n), 3)
  {
  }

  // ----- everything known is a value -----

  predicate StackValues(reps: seq<Expr>, stack: map<int, Id>) {
    forall h | h in stack :: IsValue(reps, stack[h])
  }

  predicate ContentValues(reps: seq<Expr>, content: map<Id, Id>) {
    forall s | s in content :: IsValue(reps, s) && IsValue(reps, content[s])
  }

  /** No store is taken for a value. */
  predicate KnownValues(k: Knowledge) {
    StackValues(k.reps, k.stack) && ContentValues(k.reps, k.storage) && ContentValues(k.reps, k.memory)
  }

  lemma KnownValuesGrow(k: Knowledge, reps: seq<Expr>)
    requires k.reps <= reps
    ensures KnownValues(k) ==> KnownValues(k.(reps := reps))
    ensures forall id | IsValue(k.reps, id) :: IsValue(reps, id)
    ensures forall ids | Usable(k.reps, ids) :: Usable(reps, ids)
  {
    hide IsValue, Usable;
    ValueGrows(k.reps, reps);
  }

  lemma StackValuesChange(reps: seq<Expr>, stack: map<int, Id>, h: int, id: Id)
    ensures StackValues(reps, stack) ==> StackValues(reps, Truncate(stack, h))
    ensures StackValues(reps, stack) && IsValue(reps, id) ==> StackValues(reps, stack[h := id])
    ensures StackValues(reps, stack) && h in stack ==> IsValue(reps, stack[h])
  {
    hide IsValue;
  }

  lemma ContentValuesChange(reps: seq<Expr>, content: map<Id, Id>, slot: Id, value: Id)
    ensures ContentValues(reps, content) && IsValue(reps, slot) && IsValue(reps, value) ==> ContentValues(reps, content[slot := value])
    ensures ContentValues(reps, content) && slot in content ==> IsValue(reps, slot) && IsValue(reps, content[slot])
  {
    hide IsValue;
  }

  lemma ContentIsValue(k: Knowledge, s: Id)
    requires KnownValues(k)
    ensures s in k.storage || s in k.memory ==> IsValue(k.reps, s)
  {
    hide IsValue;
  }

  lemma KeptValues(reps: seq<Expr>, content: map<Id, Id>, kept: map<Id, Id>)
    requires forall s | s in kept :: s in content && kept[s] == content[s]
    ensures ContentValues(reps, content) ==> ContentValues(reps, kept)
  {
    hide IsValue;
  }

  lemma ArgumentsAreValues(k: Knowledge, args: seq<Id>)
    requires ArgumentsKnown(k, args) && |args| <= 2
    ensures KnownValues(k) ==> Usable(k.reps, args)
  {
    hide IsValue;
    forall i | 0 <= i < |args| && KnownValues(k)
      ensures IsValue(k.reps, args[i])
    {
      assert HoldsAt(k.stack, k.height - i, args[i]);
    }
  }

  lemma SurvivingValues(reps: seq<Expr>, store: Opcode, content: map<Id, Id>, kept: map<Id, Id>, slot: Id, value: Id)
    requires WellFormed(reps) && Surviving(reps, store, content, kept, slot, value)
    ensures forall s | s in kept :: s in content && kept[s] == content[s]
  {
    hide Survives;
  }

  // ----- what exactly is recorded -----

  /** Nothing is forgotten, and no elements of the initial stack are looked up. */
  predicate Quiet(x: map<Expr, Id>, y: map<Expr, Id>) {
    Remembers(x, y) && NoInputs(x, y)
  }

  lemma QuietSelf(x: map<Expr, Id>)
    ensures Quiet(x, x)
  {
  }

  lemma QuietBoth(x: map<Expr, Id>, y: map<Expr, Id>, z: map<Expr, Id>)
    requires Quiet(x, y) && Quiet(y, z)
    ensures Quiet(x, z)
  {
  }

  lemma FoundQuietly(x: map<Expr, Id>, y: map<Expr, Id>, own: Expr)
    requires Remembers(x, y) && NewInputs(x, y, own) && !own.item.UndefinedItem?
    ensures Quiet(x, y)
  {
  }

  /** The expression stands for an element at a height that is known now and was not before. */
  predicate FromHeight(before: map<int, Id>, after: map<int, Id>, e: Expr) {
    exists h :: h in after && h !in before && e == Expr(UndefinedItem(Wrap(h)), [], 0)
  }

  /** Nothing is forgotten, and elements of the initial stack are looked up only where they become known. */
  predicate Learns(x: map<Expr, Id>, y: map<Expr, Id>, before: map<int, Id>, after: map<int, Id>) {
    && Remembers(x, y) && (forall h | h in before :: h in after)
    && forall e | e in y && e !in x && e.item.UndefinedItem? :: FromHeight(before, after, e)
  }

  lemma LearnsNothing(x: map<Expr, Id>, stack: map<int, Id>)
    ensures Learns(x, x, stack, stack)
  {
  }

  lemma LearnsOne(x: map<Expr, Id>, y: map<Expr, Id>, stack: map<int, Id>, h: int, id: Id)
    requires Remembers(x, y) && NewInputs(x, y, Expr(UndefinedItem(Wrap(h)), Sorted(UndefinedItem(Wrap(h)), []), 0)) && h !in stack
    ensures Learns(x, y, stack, stack[h := id])
  {
    hide Wrap;
    forall e | e in y && e !in x && e.item.UndefinedItem?
      ensures FromHeight(stack, stack[h := id], e)
    {
      assert h in stack[h := id];
    }
  }

  lemma LearnsBoth(x: map<Expr, Id>, y: map<Expr, Id>, z: map<Expr, Id>, a: map<int, Id>, b: map<int, Id>, c: map<int, Id>)
    requires Learns(x, y, a, b) && Learns(y, z, b, c)
    ensures Learns(x, z, a, c)
  {
    hide Wrap;
    forall e | e in z && e !in x && e.item.UndefinedItem?
      ensures FromHeight(a, c, e)
    {
      if e in y {
        assert FromHeight(a, b, e);
      } else {
        assert FromHeight(b, c, e);
      }
    }
  }

  lemma LearnsThenQuiet(x: map<Expr, Id>, y: map<Expr, Id>, z: map<Expr, Id>, a: map<int, Id>, b: map<int, Id>)
    requires Learns(x, y, a, b) && Quiet(y, z)
    ensures Learns(x, z, a, b)
  {
    hide FromHeight;
  }

  /** Looking at stack elements keeps what is known and adds elements of the initial stack. */
  predicate Looked(x: map<Expr, Id>, before: map<int, Id>, after: map<int, Id>) {
    && (forall h | h in before :: HoldsAt(after, h, before[h]))
    && forall h | h in after && h !in before :: RecordedAs(x, UndefinedItem(Wrap(h)), [], 0, after[h])
  }

  lemma LookedNothing(x: map<Expr, Id>, stack: map<int, Id>)
    ensures Looked(x, stack, stack)
  {
    hide RecordedAs;
  }

  lemma LookedOnce(x: map<Expr, Id>, stack: map<int, Id>, h: int, id: Id)
    requires h !in stack && RecordedAs(x, UndefinedItem(Wrap(h)), [], 0, id)
    ensures Looked(x, stack, stack[h := id])
  {
    hide RecordedAs, Wrap;
  }

  lemma LookedBoth(x: map<Expr, Id>, y: map<Expr, Id>, a: map<int, Id>, b: map<int, Id>, c: map<int, Id>)
    requires Looked(x, a, b) && Looked(y, b, c) && Remembers(x, y)
    ensures Looked(y, a, c)
  {
    hide RecordedAs, Remembers, Wrap;
    forall h | h in c && h !in a
      ensures RecordedAs(y, UndefinedItem(Wrap(h)), [], 0, c[h])
    {
      if h in b {
        assert HoldsAt(c, h, b[h]);
        StillRecorded(x, y, UndefinedItem(Wrap(h)), [], 0, b[h]);
      }
    }
    forall h | h in a
      ensures HoldsAt(c, h, a[h])
    {
      assert HoldsAt(b, h, a[h]);
    }
  }

  lemma LookedLater(x: map<Expr, Id>, y: map<Expr, Id>, a: map<int, Id>, b: map<int, Id>)
    requires Looked(x, a, b) && Remembers(x, y)
    ensures Looked(y, a, b)
  {
    LookedNothing(y, b);
    LookedBoth(x, y, a, b, b);
  }

  predicate SameContents(k: Knowledge, k': Knowledge) {
    k'.storage == k.storage && k'.memory == k.memory && k'.seqNr == k.seqNr
  }

  /** The words at the two slots could not be told apart, and not the same value is stored. */
  ghost predicate MayOverlap(reps: seq<Expr>, store: Opcode, s: Id, slot: Id, held: Id, value: Id)
    requires WellFormed(reps)
  {
    if store == SSTORE then held != value && TestedDifferent(reps, s, slot, false) else TestedApart(reps, s, slot, false)
  }

  /** A store forgets only what it may overwrite. */
  ghost predicate ForgetsOnly(reps: seq<Expr>, store: Opcode, content: map<Id, Id>, now: map<Id, Id>, slot: Id, value: Id)
    requires WellFormed(reps)
  {
    && HoldsClass(now, slot, value)
    && (forall s | s in now && s != slot :: HoldsClass(content, s, now[s]))
    && forall s | s in content && s !in now :: MayOverlap(reps, store, s, slot, content[s], value)
  }

  predicate HoldsClass(content: map<Id, Id>, slot: Id, value: Id) {
    slot in content && content[slot] == value
  }

  lemma ForgetsOverwritten(reps: seq<Expr>, bigger: seq<Expr>, store: Opcode, content: map<Id, Id>, kept: map<Id, Id>, slot: Id, value: Id)
    requires WellFormed(reps) && WellFormed(bigger) && reps <= bigger && Surviving(reps, store, content, kept, slot, value)
    requires forall s | s in content && s !in kept :: MayOverlap(reps, store, s, slot, content[s], value)
    ensures ForgetsOnly(bigger, store, content, kept[slot := value], slot, value)
  {
    hide WellFormed, Survives, TestedDifferent, TestedApart;
    forall s | s in content && s !in kept
      ensures MayOverlap(bigger, store, s, slot, content[s], value)
    {
      TestsGrow(reps, bigger, s, slot, false);
    }
  }

  /** The contents after a store and what is reported of it. */
  ghost predicate Wrote(k: Knowledge, k': Knowledge, x: map<Expr, Id>, store: Opcode, slot: Id, value: Id, r: Option<StoreOperation>)
    requires WellFormed(k'.reps)
  {
    var content := ContentOf(k, LoadOf(store));
    if HoldsClass(content, slot, value) then SameContents(k, k') && r == None
    else
      && k'.seqNr == k.seqNr + 2 && ForgetsOnly(k'.reps, store, content, ContentOf(k', LoadOf(store)), slot, value)
      && (if store == SSTORE then k'.memory == k.memory else k'.storage == k.storage)
      && r.Some? && r.value == StoreOperation(TargetOf(store), slot, k.seqNr + 1, r.value.expression)
      && RecordedAs(x, Operation(store), [slot, value], k.seqNr + 1, r.value.expression)
  }

  /** The contents after a load of the class id. */
  predicate Read(k: Knowledge, k': Knowledge, x: map<Expr, Id>, load: Opcode, slot: Id, id: Id) {
    var content := ContentOf(k, load);
    if slot in content then SameContents(k, k') && id == content[slot]
    else
      && ContentOf(k', load) == content[slot := id] && RecordedAs(x, Operation(load), [slot], k.seqNr, id)
      && k'.seqNr == k.seqNr && (if load == SLOAD then k'.memory == k.memory else k'.storage == k.storage)
  }

  /** The arguments are replaced by one class. */
  predicate Replaced(k: Knowledge, k': Knowledge, n: nat, id: Id) {
    k'.height == k.height + 1 - n && k'.stack == Truncate(k.stack[k.height + 1 - n := id], k.height + 1 - n)
  }

  /** The arguments are taken off. */
  predicate Removed(k: Knowledge, k': Knowledge, n: nat) {
    k'.height == k.height - n && k'.stack == Truncate(k.stack, k.height - n)
  }

  predicate ComputedBy(k: Knowledge, k': Knowledge, x: map<Expr, Id>, op: Opcode, args: seq<Id>, id: Id) {
    Replaced(k, k', |args|, id) && (Deterministic(Operation(op)) ==> RecordedAs(x, Operation(op), args, 0, id))
  }

  /** An instruction with these arguments, other than DUP, SWAP and POP. */
  ghost predicate Operated(k: Knowledge, k': Knowledge, x: map<Expr, Id>, op: Opcode, args: seq<Id>, r: Option<StoreOperation>)
    requires WellFormed(k'.reps) && |args| == ArgCount(op)
  {
    if IsStore(op) then Removed(k, k', 2) && Wrote(k, k', x, op, args[0], args[1], r)
    else if IsLoad(op) then r == None && exists id :: Replaced(k, k', 1, id) && Read(k, k', x, op, args[0], id)
    else
      && r == None && SameContents(k, k')
      && if RetCount(op) == 0 then Removed(k, k', |args|) else exists id :: ComputedBy(k, k', x, op, args, id)
  }

  ghost predicate OperatedOn(k: Knowledge, k': Knowledge, x: map<Expr, Id>, op: Opcode, r: Option<StoreOperation>)
    requires WellFormed(k'.reps)
  {
    exists args :: |args| == ArgCount(op) && ArgumentsKnown(k, args) && Operated(k, k', x, op, args, r)
  }

  /** What an item makes of the knowledge, once the elements it looks at are known. */
  ghost predicate StepOn(k: Knowledge, k': Knowledge, x: map<Expr, Id>, item: Item, r: Option<StoreOperation>)
    requires WellFormed(k'.reps)
  {
    match item
    case Tag(_) => r == None && k' == k.(reps := k'.reps)
    case Operation(op) =>
      if IsDup(op) then
        r == None && k.height - (op - DUP1) in k.stack && k' == Pushed(k, k.stack[k.height - (op - DUP1)]).(reps := k'.reps)
      else if IsSwap(op) then
        && r == None && k.height in k.stack && k.height - (op - SWAP1 + 1) in k.stack
        && k' == Swapped(k, op - SWAP1 + 1).(reps := k'.reps)
      else if op == POP then r == None && k' == Consumed(k, 1).(reps := k'.reps)
      else OperatedOn(k, k', x, op, r)
    case _ => r == None && exists id :: k' == Pushed(k, id).(reps := k'.reps) && RecordedAs(x, item, [], 0, id)
  }

  /** The knowledge after looking at some elements of the stack. */
  predicate Sees(x: map<Expr, Id>, y: map<Expr, Id>, k: Knowledge, k1: Knowledge) {
    && k1 == k.(reps := k1.reps, stack := k1.stack) && Looked(y, k.stack, k1.stack) && Learns(x, y, k.stack, k1.stack)
    && (forall h | h in k1.stack :: h <= k1.height) && forall h | 0 < h <= k.height :: h in k.stack
  }

  /** What an item makes of the knowledge. */
  ghost predicate FedAs(k: Knowledge, k': Knowledge, x: map<Expr, Id>, y: map<Expr, Id>, item: Item, r: Option<StoreOperation>)
    requires WellFormed(k'.reps)
  {
    exists k1 :: Sees(x, y, k, k1) && StepOn(k1, k', y, item, r)
  }

  lemma FedAfter(k: Knowledge, k1: Knowledge, k': Knowledge, x: map<Expr, Id>, y: map<Expr, Id>, item: Item, r: Option<StoreOperation>)
    requires WellFormed(k'.reps) && k1 == k.(reps := k1.reps, stack := k1.stack) && Looked(y, k.stack, k1.stack)
    requires Learns(x, y, k.stack, k1.stack) && StepOn(k1, k', y, item, r) && KnowledgeOk(k) && KnowledgeOk(k1)
    ensures FedAs(k, k', x, y, item, r)
  {
    hide Looked, Learns, StepOn, WellFormed, Chronological, ContentBelow, IdsBelow;
    assert Sees(x, y, k, k1);
  }

  lemma FedPush(k: Knowledge, k': Knowledge, x: map<Expr, Id>, y: map<Expr, Id>, item: Item, id: Id)
    requires WellFormed(k'.reps) && IsPushItem(item) && Quiet(x, y) && KnowledgeOk(k)
    requires k' == Pushed(k, id).(reps := k'.reps) && RecordedAs(y, item, [], 0, id)
    ensures FedAs(k, k', x, y, item, None)
  {
    hide Looked, Learns, RecordedAs, KnowledgeOk;
    LookedNothing(y, k.stack);
    LearnsNothing(x, k.stack);
    LearnsThenQuiet(x, x, y, k.stack, k.stack);
    FedAfter(k, k, k', x, y, item, None);
  }

  lemma FedOperation(k: Knowledge, k1: Knowledge, k': Knowledge, x: map<Expr, Id>, y: map<Expr, Id>, op: Opcode, args: seq<Id>, r: Option<StoreOperation>)
    requires WellFormed(k'.reps) && !IsDup(op) && !IsSwap(op) && op != POP
    requires Looked(y, k.stack, k1.stack) && Learns(x, y, k.stack, k1.stack) && k1 == k.(reps := k1.reps, stack := k1.stack)
    requires |args| == ArgCount(op) && ArgumentsKnown(k1, args) && Operated(k1, k', y, op, args, r) && KnowledgeOk(k) && KnowledgeOk(k1)
    ensures FedAs(k, k', x, y, Operation(op), r)
  {
    hide Looked, Learns, Operated, ArgumentsKnown, ArgCount, KnowledgeOk;
    assert OperatedOn(k1, k', y, op, r);
    FedAfter(k, k1, k', x, y, Operation(op), r);
  }

  lemma OperatedStore(k: Knowledge, k1: Knowledge, k': Knowledge, x: map<Expr, Id>, op: Opcode, args: seq<Id>, r: Option<StoreOperation>)
    requires KnowledgeOk(k1) && IsStore(op) && |args| == ArgCount(op) && k1.height == k.height && k1.stack == k.stack
    requires Wrote(k, k1, x, op, args[0], args[1], r) && k' == Consumed(k1, 2)
    ensures WellFormed(k'.reps) && Operated(k, k', x, op, args, r)
  {
    hide WellFormed, Chronological, ContentBelow, IdsBelow, RecordedAs, ForgetsOnly, Truncate;
  }

  lemma OperatedLoad(k: Knowledge, k1: Knowledge, k': Knowledge, x: map<Expr, Id>, op: Opcode, args: seq<Id>, id: Id)
    requires KnowledgeOk(k1) && IsLoad(op) && |args| == ArgCount(op) && k1.height == k.height && k1.stack == k.stack
    requires Read(k, k1, x, op, args[0], id)
    requires k' == k1.(height := k1.height, stack := Truncate(k1.stack[k1.height := id], k1.height))
    ensures WellFormed(k'.reps) && Operated(k, k', x, op, args, None)
  {
    hide WellFormed, Chronological, ContentBelow, IdsBelow, RecordedAs, Truncate;
    assert Replaced(k, k', 1, id) && Read(k, k', x, op, args[0], id);
  }

  lemma OperatedPlain(k: Knowledge, k1: Knowledge, k': Knowledge, x: map<Expr, Id>, op: Opcode, args: seq<Id>, id: Id)
    requires KnowledgeOk(k1) && !IsMemoryItem(Operation(op)) && |args| == ArgCount(op) && k1 == k.(reps := k1.reps)
    requires RetCount(op) != 0 ==>
               && k' == k1.(height := k1.height + 1 - |args|, stack := Truncate(k1.stack[k1.height + 1 - |args| := id], k1.height + 1 - |args|))
               && (Deterministic(Operation(op)) ==> RecordedAs(x, Operation(op), args, 0, id))
    requires RetCount(op) == 0 ==> k' == Consumed(k1, |args|)
    ensures WellFormed(k'.reps) && Operated(k, k', x, op, args, None)
  {
    hide WellFormed, Chronological, ContentBelow, IdsBelow, RecordedAs, Truncate, ArgCount, RetCount;
    if RetCount(op) != 0 {
      assert ComputedBy(k, k', x, op, args, id);
    }
  }

  lemma ComputedValues(k: Knowledge, k1: Knowledge, n: nat, id: Id)
    requires k1 == k.(reps := k1.reps) && k.reps <= k1.reps
    ensures KnownValues(k) && IsValue(k1.reps, id) ==>
              KnownValues(k1.(height := k1.height + 1 - n, stack := Truncate(k1.stack[k1.height + 1 - n := id], k1.height + 1 - n)))
  {
    hide IsValue, StackValues, ContentValues, Truncate;
    KnownValuesGrow(k, k1.reps);
    StackValuesChange(k1.reps, k1.stack, k1.height + 1 - n, id);
    StackValuesChange(k1.reps, k1.stack[k1.height + 1 - n := id], k1.height + 1 - n, id);
  }

  lemma HeldBelow(k: Knowledge, h: int, id: Id)
    requires KnowledgeOk(k) && HoldsAt(k.stack, h, id)
    ensures id < |k.reps|
  {
    hide WellFormed, Chronological, ContentBelow;
  }

  class KnownState {
    const classes: ExpressionClasses
    var stackHeight: int
    var stackElements: map<int, Id>
    var sequenceNumber: nat
    var storageContent: map<Id, Id>
    var memoryContent: map<Id, Id>
    ghost var fed: seq<Item>

    ghost function Now(): Knowledge
      reads this, classes
    {
      Knowledge(classes.representatives, stackHeight, stackElements, storageContent, memoryContent, sequenceNumber)
    }

    ghost predicate Ok()
      reads this, classes
    {
      classes.Valid() && KnowledgeOk(Now())
    }

    /** Whatever is known is a value. */
    ghost predicate Neat()
      reads this, classes
    {
      Tidy(classes.representatives, classes.expressions) && KnownValues(Now())
    }

    /** What is known is true after every run of the fed items. */
    ghost predicate Valid()
      reads this, classes
    {
      Ok() && SoundKnowledge(Now(), fed)
    }

    constructor (classes: ExpressionClasses)
      requires classes.Valid() && classes.representatives == []
      ensures Valid() && this.classes == classes && fed == []
      ensures Now() == Knowledge([], 0, map[], map[], map[], 1)
      ensures Tidy(classes.representatives, classes.expressions) ==> Neat()
      ensures classes.expressions == old(classes.expressions)
    {
      this.classes := classes;
      stackHeight := 0;
      stackElements := map[];
      sequenceNumber := 1;
      storageContent := map[];
      memoryContent := map[];
      fed := [];
      NothingKnown();
    }

    /** The class at a height; a height that was not assigned yet holds an element of the initial stack. */
    method StackElement(h: int) returns (r: Result<Id>)
      requires Ok() && h <= stackHeight
      modifies `stackElements, classes
      ensures r.Success? ==>
                && Ok() && PureGrowth(old(classes.representatives), classes.representatives)
                && Refines(old(Now()), Now(), stackHeight - h + 1)
                && stackElements == old(stackElements)[h := r.value]
                && (h in old(stackElements) ==> stackElements == old(stackElements))
      ensures r.Success? && old(Neat()) ==> Neat()
      ensures r.Failure? <==> h !in old(stackElements) && !(-HEIGHT_LIMIT <= h < HEIGHT_LIMIT)
      ensures r.Failure? ==> r.error == Overflow
      ensures Learns(old(classes.expressions), classes.expressions, old(stackElements), stackElements)
      ensures r.Success? ==> Looked(classes.expressions, old(stackElements), stackElements)
    {
      hide FromHeight, Looked, OwnClasses, Agrees, ValidInit, Chronological, WellFormed, TableOk, NoMemory, Means, ContentBelow, Tidy, IsValue, Usable, StackValues, ContentValues, Simplest, RecordedAs, Remembers, NewInputs, NoInputs, Sorted;
      ghost var k := Now();
      LearnsNothing(classes.expressions, stackElements);
      LookedNothing(classes.expressions, stackElements);
      if h in stackElements {
        RefinesReflexive(k);
        PureGrowthOne(k.reps, Expr(Push(0), [], 0));
        assert stackElements == stackElements[h := stackElements[h]];
        return Success(stackElements[h]);
      }
      if h < -HEIGHT_LIMIT || h >= HEIGHT_LIMIT {
        return Failure(Overflow);
      }
      ValueList(k.reps, []);
      var id := classes.Find(UndefinedItem(Wrap(h)), [], 0);
      KnownValuesGrow(k, classes.representatives);
      StackValuesChange(classes.representatives, stackElements, h, id);
      PureFound(k.reps, classes.representatives, UndefinedItem(Wrap(h)), [], id);
      GrowKnowledge(k, classes.representatives);
      GrowRefines(k, classes.representatives);
      MeansShape(classes.representatives, UndefinedItem(Wrap(h)), [], id);
      ElementRefines(k.(reps := classes.representatives), h, id);
      LookedOnce(classes.expressions, stackElements, h, id);
      LearnsOne(old(classes.expressions), classes.expressions, stackElements, h, id);
      stackElements := stackElements[h := id];
      RefinesTransitive(k, k.(reps := classes.representatives), Now(), 0, stackHeight - h + 1);
      r := Success(id);
    }

    /** The classes of the topmost n stack elements, the topmost first. */
    method TopElements(n: nat) returns (r: Result<seq<Id>>)
      requires Ok()
      modifies `stackElements, classes
      ensures r.Success? ==>
                && Ok() && PureGrowth(old(classes.representatives), classes.representatives)
                && Refines(old(Now()), Now(), n)
                && |r.value| == n && ArgumentsKnown(Now(), r.value)
      ensures r.Success? && old(Neat()) ==> Neat()
      ensures r.Success? ==> ReachGrows(stackHeight, old(stackElements), stackHeight, stackElements, n)
      ensures r.Failure? ==> r.error == Overflow && TooHigh(stackHeight, old(stackElements), n)
      ensures Learns(old(classes.expressions), classes.expressions, old(stackElements), stackElements)
      ensures r.Success? ==> Looked(classes.expressions, old(stackElements), stackElements)
    {
      hide FromHeight, Looked, Remembers, OwnClasses, Agrees, ValidInit, KnowledgeOk, TableOk, NoMemory, Refines, Tidy, KnownValues, Reach, ReachGrows, TooHigh;
      ghost var k := Now();
      RefinesReflexive(k);
      PureGrowthOne(k.reps, Expr(Push(0), [], 0));
      LooksFromStart(stackHeight, stackElements, n);
      LearnsNothing(classes.expressions, stackElements);
      LookedNothing(classes.expressions, stackElements);
      var args: seq<Id> := [];
      while |args| < n
        invariant |args| <= n && Ok() && PureGrowth(k.reps, classes.representatives)
        invariant Refines(k, Now(), |args|)
        invariant ArgumentsKnown(Now(), args) && (old(Neat()) ==> Neat())
        invariant Learns(old(classes.expressions), classes.expressions, k.stack, stackElements) && Looked(classes.expressions, k.stack, stackElements)
        invariant ReachGrows(stackHeight, k.stack, stackHeight, stackElements, n)
      {
        ghost var before, known := Now(), classes.expressions;
        var id := StackElement(stackHeight - |args|);
        LearnsBoth(old(classes.expressions), known, classes.expressions, k.stack, before.stack, stackElements);
        if id.Failure? {
          LookFails(stackHeight, k.stack, stackHeight - |args|, n);
          return Failure(id.error);
        }
        LookedBoth(known, classes.expressions, k.stack, before.stack, stackElements);
        LookedAt(stackHeight, k.stack, before.stack, stackHeight - |args|, id.value, n);
        PureGrowthTransitive(k.reps, before.reps, classes.representatives);
        RefinesTransitive(k, before, Now(), |args|, |args| + 1);
        OneMoreKnown(before, Now(), args, id.value);
        args := args + [id.value];
      }
      r := Success(args);
    }

    /** Retrieves the class stored at a slot, or makes a new one for the load. */
    method LoadFromStorage(slot: Id) returns (id: Id)
      requires Ok() && slot < |classes.representatives|
      modifies `storageContent, classes
      ensures Ok() && Refines(old(Now()), Now(), 0) && Reported(old(classes.representatives), classes.representatives, None)
      ensures slot in storageContent && storageContent[slot] == id
      ensures old(Neat() && IsValue(classes.representatives, slot)) ==> Neat() && IsValue(classes.representatives, id)
      ensures slot in old(storageContent) ==> id == old(storageContent)[slot] && Now() == old(Now())
      ensures Quiet(old(classes.expressions), classes.expressions)
      ensures Read(old(Now()), Now(), classes.expressions, SLOAD, slot, id)
    {
      hide Quiet, OwnClasses, Agrees, ValidInit, KnowledgeOk, TableOk, NoMemory, Grown, Refines, Tidy, IsValue, Usable, StackValues, ContentValues, Simplest, RecordedAs, Remembers, NewInputs, NoInputs, Sorted;
      ghost var k := Now();
      QuietSelf(classes.expressions);
      ContentValuesChange(k.reps, storageContent, slot, slot);
      if slot in storageContent {
        RefinesReflexive(k);
        return storageContent[slot];
      }
      LoadArity();
      ValueList(k.reps, [slot]);
      id := classes.Find(Operation(SLOAD), [slot], sequenceNumber);
      FoundQuietly(old(classes.expressions), classes.expressions, Expr(Operation(SLOAD), Sorted(Operation(SLOAD), [slot]), sequenceNumber));
      KnownValuesGrow(k, classes.representatives);
      ContentValuesChange(classes.representatives, storageContent, slot, id);
      LoadRefines(k, SLOAD, slot, classes.representatives, id);
      RefinesOk(k, WithContent(k.(reps := classes.representatives), SLOAD, k.storage[slot := id]));
      LoadReported(k, SLOAD, slot, classes.representatives, id);
      storageContent := storageContent[slot := id];
    }

    method LoadFromMemory(slot: Id) returns (id: Id)
      requires Ok() && slot < |classes.representatives|
      modifies `memoryContent, classes
      ensures Ok() && Refines(old(Now()), Now(), 0) && Reported(old(classes.representatives), classes.representatives, None)
      ensures slot in memoryContent && memoryContent[slot] == id
      ensures old(Neat() && IsValue(classes.representatives, slot)) ==> Neat() && IsValue(classes.representatives, id)
      ensures slot in old(memoryContent) ==> id == old(memoryContent)[slot] && Now() == old(Now())
      ensures Quiet(old(classes.expressions), classes.expressions)
      ensures Read(old(Now()), Now(), classes.expressions, MLOAD, slot, id)
    {
      hide Quiet, OwnClasses, Agrees, ValidInit, KnowledgeOk, TableOk, NoMemory, Grown, Refines, Tidy, IsValue, Usable, StackValues, ContentValues, Simplest, RecordedAs, Remembers, NewInputs, NoInputs, Sorted;
      ghost var k := Now();
      QuietSelf(classes.expressions);
      ContentValuesChange(k.reps, memoryContent, slot, slot);
      if slot in memoryContent {
        RefinesReflexive(k);
        return memoryContent[slot];
      }
      LoadArity();
      ValueList(k.reps, [slot]);
      id := classes.Find(Operation(MLOAD), [slot], sequenceNumber);
      FoundQuietly(old(classes.expressions), classes.expressions, Expr(Operation(MLOAD), Sorted(Operation(MLOAD), [slot]), sequenceNumber));
      KnownValuesGrow(k, classes.representatives);
      ContentValuesChange(classes.representatives, memoryContent, slot, id);
      LoadRefines(k, MLOAD, slot, classes.representatives, id);
      RefinesOk(k, WithContent(k.(reps := classes.representatives), MLOAD, k.memory[slot := id]));
      LoadReported(k, MLOAD, slot, classes.representatives, id);
      memoryContent := memoryContent[slot := id];
    }

    /** Stores a value, forgetting only what the store may overwrite. A store of what is known to be
        there already is not recorded. */
    method StoreInStorage(slot: Id, value: Id) returns (r: Option<StoreOperation>)
      requires Ok() && slot < |classes.representatives| && value < |classes.representatives|
      modifies `storageContent, `sequenceNumber, classes
      ensures Ok() && StoresTo(old(Now()), Now(), SSTORE, slot, value)
      ensures Reported(old(classes.representatives), classes.representatives, r)
      ensures old(Neat() && IsValue(classes.representatives, slot) && IsValue(classes.representatives, value)) ==> Neat()
      ensures Quiet(old(classes.expressions), classes.expressions)
      ensures Wrote(old(Now()), Now(), classes.expressions, SSTORE, slot, value, r)
    {
      hide Quiet, Remembers, RecordedAs, ForgetsOnly, TestedDifferent, TestedApart, OwnClasses, Agrees, ValidInit, KnowledgeOk, TableOk, NoMemory, Grown, StoresTo, Surviving, Reported, Tidy, IsValue, StackValues, ContentValues;
      ghost var k := Now();
      QuietSelf(classes.expressions);
      PureGrowthOne(k.reps, Expr(Push(0), [], 0));
      if slot in storageContent && storageContent[slot] == value {
        RedundantStore(k, SSTORE, slot, value);
        ReportedPure(k.reps, k.reps);
        return None;
      }
      var kept := KeepStorage(slot, value);
      ghost var grown, known := Now(), classes.expressions;
      KnownValuesGrow(k, grown.reps);
      r := Append(SSTORE, slot, value, kept);
      QuietBoth(old(classes.expressions), known, classes.expressions);
      KnownValuesGrow(grown, classes.representatives);
      OkWellFormed(grown);
      SurvivingValues(grown.reps, SSTORE, storageContent, kept, slot, value);
      KeptValues(classes.representatives, storageContent, kept);
      ContentValuesChange(classes.representatives, kept, slot, value);
      ForgetsOverwritten(grown.reps, classes.representatives, SSTORE, storageContent, kept, slot, value);
      storageContent := kept[slot := value];
      sequenceNumber := sequenceNumber + 2;
      GrowStores(k, grown.reps, Now(), SSTORE, slot, value);
      StoresOk(k, Now(), SSTORE, slot, value);
      ReportedLater(k.reps, grown.reps, classes.representatives, r);
    }

    /** The storage contents that survive a store: other slots, and slots that hold the same value. */
    method KeepStorage(slot: Id, value: Id) returns (kept: map<Id, Id>)
      requires Ok() && slot < |classes.representatives| && value < |classes.representatives|
      modifies classes
      ensures Ok() && PureGrowth(old(classes.representatives), classes.representatives)
      ensures Surviving(classes.representatives, SSTORE, storageContent, kept, slot, value)
      ensures forall s | s in storageContent && s !in kept ::
                storageContent[s] != value && TestedDifferent(classes.representatives, s, slot, false)
      ensures old(Neat() && IsValue(classes.representatives, slot)) ==> Neat()
      ensures Quiet(old(classes.expressions), classes.expressions)
    {
      hide Quiet, Remembers, OwnClasses, Tidy, KnownValues, IsValue, Agrees, ValidInit, Chronological, NoMemory, Survives, Surviving, Recorded, ArityOk, IdsBelow, TestedDifferent, Found, TagsFrom, SizesRecorded, AlwaysDifferent;
      ghost var k := Now();
      PureGrowthOne(k.reps, Expr(Push(0), [], 0));
      ghost var neat := Neat() && IsValue(k.reps, slot);
      kept := map[];
      NothingSurvives(k.reps, SSTORE, storageContent, slot, value);
      QuietSelf(classes.expressions);
      var rest := storageContent.Keys;
      while rest != {}
        invariant rest <= storageContent.Keys
        invariant Ok() && PureGrowth(k.reps, classes.representatives)
        invariant neat ==> Neat() && IsValue(classes.representatives, slot)
        invariant Quiet(old(classes.expressions), classes.expressions)
        invariant Surviving(classes.representatives, SSTORE, storageContent, kept, slot, value)
        invariant forall s | s in storageContent && s !in kept && s !in rest ::
                    storageContent[s] != value && TestedDifferent(classes.representatives, s, slot, false)
        decreases |rest|
      {
        var s :| s in rest;
        ghost var before, known := classes.representatives, classes.expressions;
        if neat {
          ContentIsValue(Now(), s);
        }
        var different := classes.KnownToBeDifferent(s, slot);
        QuietBoth(old(classes.expressions), known, classes.expressions);
        KnownValuesGrow(k.(reps := before), classes.representatives);
        PureGrowthTransitive(k.reps, before, classes.representatives);
        GrowKnowledge(k, classes.representatives);
        SurvivingGrows(before, classes.representatives, SSTORE, storageContent, kept, slot, value);
        forall x | TestedDifferent(before, x, slot, false)
          ensures TestedDifferent(classes.representatives, x, slot, false)
        {
          TestsGrow(before, classes.representatives, x, slot, false);
        }
        if different || storageContent[s] == value {
          SurvivesStorage(classes.representatives, s, slot, storageContent[s], value);
          OneMoreSurvives(classes.representatives, SSTORE, storageContent, kept, s, slot, value);
          kept := kept[s := storageContent[s]];
        }
        rest := rest - {s};
      }
    }

    method StoreInMemory(slot: Id, value: Id) returns (r: Option<StoreOperation>)
      requires Ok() && slot < |classes.representatives| && value < |classes.representatives|
      modifies `memoryContent, `sequenceNumber, classes
      ensures Ok() && StoresTo(old(Now()), Now(), MSTORE, slot, value)
      ensures Reported(old(classes.representatives), classes.representatives, r)
      ensures old(Neat() && IsValue(classes.representatives, slot) && IsValue(classes.representatives, value)) ==> Neat()
      ensures Quiet(old(classes.expressions), classes.expressions)
      ensures Wrote(old(Now()), Now(), classes.expressions, MSTORE, slot, value, r)
    {
      hide Quiet, Remembers, RecordedAs, ForgetsOnly, TestedDifferent, TestedApart, OwnClasses, Agrees, ValidInit, KnowledgeOk, TableOk, NoMemory, Grown, StoresTo, Surviving, Reported, Tidy, IsValue, StackValues, ContentValues;
      ghost var k := Now();
      QuietSelf(classes.expressions);
      PureGrowthOne(k.reps, Expr(Push(0), [], 0));
      if slot in memoryContent && memoryContent[slot] == value {
        RedundantStore(k, MSTORE, slot, value);
        ReportedPure(k.reps, k.reps);
        return None;
      }
      var kept := KeepMemory(slot, value);
      ghost var grown, known := Now(), classes.expressions;
      KnownValuesGrow(k, grown.reps);
      r := Append(MSTORE, slot, value, kept);
      QuietBoth(old(classes.expressions), known, classes.expressions);
      KnownValuesGrow(grown, classes.representatives);
      OkWellFormed(grown);
      SurvivingValues(grown.reps, MSTORE, memoryContent, kept, slot, value);
      KeptValues(classes.representatives, memoryContent, kept);
      ContentValuesChange(classes.representatives, kept, slot, value);
      ForgetsOverwritten(grown.reps, classes.representatives, MSTORE, memoryContent, kept, slot, value);
      memoryContent := kept[slot := value];
      sequenceNumber := sequenceNumber + 2;
      GrowStores(k, grown.reps, Now(), MSTORE, slot, value);
      StoresOk(k, Now(), MSTORE, slot, value);
      ReportedLater(k.reps, grown.reps, classes.representatives, r);
    }

    /** The memory contents that survive a store: words at least 32 bytes away. */
    method KeepMemory(slot: Id, ghost value: Id) returns (kept: map<Id, Id>)
      requires Ok() && slot < |classes.representatives| && value < |classes.representatives|
      modifies classes
      ensures Ok() && PureGrowth(old(classes.representatives), classes.representatives)
      ensures Surviving(classes.representatives, MSTORE, memoryContent, kept, slot, value)
      ensures forall s | s in memoryContent && s !in kept :: TestedApart(classes.representatives, s, slot, false)
      ensures old(Neat() && IsValue(classes.representatives, slot)) ==> Neat()
      ensures Quiet(old(classes.expressions), classes.expressions)
    {
      hide Quiet, Remembers, OwnClasses, Tidy, KnownValues, IsValue, Agrees, ValidInit, Chronological, NoMemory, Survives, Surviving, Recorded, ArityOk, IdsBelow, TestedApart, Found, TagsFrom, SizesRecorded, AlwaysApart;
      ghost var k := Now();
      PureGrowthOne(k.reps, Expr(Push(0), [], 0));
      ghost var neat := Neat() && IsValue(k.reps, slot);
      kept := map[];
      NothingSurvives(k.reps, MSTORE, memoryContent, slot, value);
      QuietSelf(classes.expressions);
      var rest := memoryContent.Keys;
      while rest != {}
        invariant rest <= memoryContent.Keys
        invariant Ok() && PureGrowth(k.reps, classes.representatives)
        invariant neat ==> Neat() && IsValue(classes.representatives, slot)
        invariant Quiet(old(classes.expressions), classes.expressions)
        invariant Surviving(classes.representatives, MSTORE, memoryContent, kept, slot, value)
        invariant forall s | s in memoryContent && s !in kept && s !in rest :: TestedApart(classes.representatives, s, slot, false)
        decreases |rest|
      {
        var s :| s in rest;
        ghost var before, known := classes.representatives, classes.expressions;
        if neat {
          ContentIsValue(Now(), s);
        }
        var apart := classes.KnownToBeDifferentBy32(s, slot);
        QuietBoth(old(classes.expressions), known, classes.expressions);
        KnownValuesGrow(k.(reps := before), classes.representatives);
        PureGrowthTransitive(k.reps, before, classes.representatives);
        GrowKnowledge(k, classes.representatives);
        SurvivingGrows(before, classes.representatives, MSTORE, memoryContent, kept, slot, value);
        forall x | TestedApart(before, x, slot, false)
          ensures TestedApart(classes.representatives, x, slot, false)
        {
          TestsGrow(before, classes.representatives, x, slot, false);
        }
        if apart {
          SurvivesMemory(classes.representatives, s, slot, memoryContent[s], value);
          OneMoreSurvives(classes.representatives, MSTORE, memoryContent, kept, s, slot, value);
          kept := kept[s := memoryContent[s]];
        }
        rest := rest - {s};
      }
    }

    /** Records the class of a store under the next, even sequence number. */
    method Append(store: Opcode, slot: Id, value: Id, ghost kept: map<Id, Id>) returns (r: Option<StoreOperation>)
      requires Ok() && IsStore(store) && slot < |classes.representatives| && value < |classes.representatives|
      requires Surviving(classes.representatives, store, ContentOf(Now(), LoadOf(store)), kept, slot, value)
      modifies classes
      ensures classes.Valid() && StoresTo(old(Now()), Stored(old(Now()), store, kept, slot, value), store, slot, value)
      ensures classes.representatives == Stored(old(Now()), store, kept, slot, value).reps
      ensures r.Some? && Reported(old(classes.representatives), classes.representatives, r)
      ensures old(Tidy(classes.representatives, classes.expressions) && IsValue(classes.representatives, slot) && IsValue(classes.representatives, value)) ==>
                Tidy(classes.representatives, classes.expressions)
      ensures Quiet(old(classes.expressions), classes.expressions)
      ensures r.value == StoreOperation(TargetOf(store), slot, sequenceNumber + 1, r.value.expression)
      ensures RecordedAs(classes.expressions, Operation(store), [slot, value], sequenceNumber + 1, r.value.expression)
    {
      hide Quiet, OwnClasses, Agrees, ValidInit, KnowledgeOk, TableOk, NoMemory, Grown, StoresTo, Surviving, Reported, Tidy, IsValue, Usable, Simplest, RecordedAs, Remembers, NewInputs, NoInputs, Sorted;
      ghost var k := Now();
      ValueList(k.reps, [slot, value]);
      NewStore(k, store, kept, slot, value);
      StoreArity(store);
      var id := classes.Find(Operation(store), [slot, value], sequenceNumber + 1);
      FoundQuietly(old(classes.expressions), classes.expressions, Expr(Operation(store), Sorted(Operation(store), [slot, value]), sequenceNumber + 1));
      FreshStore(k, store, slot, value, classes.representatives, id);
      ReportedStore(k.reps, store, slot, value, sequenceNumber + 1);
      r := Some(StoreOperation(TargetOf(store), slot, sequenceNumber + 1, id));
    }

    /** Takes one more item into account. */
    method FeedItem(item: Item) returns (r: Result<Option<StoreOperation>>)
      requires Valid() && Feedable(item) && MayPush(item, classes.pushed)
      modifies this, classes
      ensures r.Success? ==>
                && Valid() && fed == old(fed) + Lasting(item)
                && Reported(old(classes.representatives), classes.representatives, r.value)
      ensures r.Success? && old(Neat()) ==> Neat()
      ensures r.Success? ==> ReachGrows(old(stackHeight), old(stackElements), stackHeight, stackElements, 17)
      ensures r.Failure? ==> r.error == Overflow && TooHigh(old(stackHeight), old(stackElements), 17)
      ensures Remembers(old(classes.expressions), classes.expressions)
      ensures r.Success? ==> FedAs(old(Now()), Now(), old(classes.expressions), classes.expressions, item, r.value)
    {
      hide FromHeight, FedAs, Looked, Remembers, RecordedAs, OperatedOn, OwnClasses, Agrees, ValidInit, KnowledgeOk, TableOk, Reported, Steps, Refines, SoundAfter, HasSideEffects, ArgCount, Tidy, StackValues, ContentValues, Reach, ReachGrows, TooHigh;
      ghost var k := Now();
      GrowsNot(stackHeight, stackElements);
      RemembersSelf(classes.expressions);
      LearnsNothing(classes.expressions, stackElements);
      LookedNothing(classes.expressions, stackElements);
      GrowsTransitive(k.height, k.stack, k.height, k.stack, k.height, k.stack, 0, 0);
      if item.Tag? {
        TagStep(k, item);
        PureGrowthOne(k.reps, Expr(Push(0), [], 0));
        ReportedPure(k.reps, k.reps);
        r := Success(None);
        OkWellFormed(k);
        FedAfter(k, k, k, old(classes.expressions), classes.expressions, item, None);
      } else if item.Operation? {
        var op := item.instr;
        if IsDup(op) {
          r := FeedDup(op);
        } else if IsSwap(op) {
          r := FeedSwap(op);
        } else if op == POP {
          PopStep(k);
          ConsumedOk(k, 1);
          PureGrowthOne(k.reps, Expr(Push(0), [], 0));
          ReportedPure(k.reps, k.reps);
          StackValuesChange(classes.representatives, stackElements, stackHeight - 1, 0);
          ConsumeGrows(stackHeight, stackElements, 1, 0);
          GrowsTransitive(k.height, k.stack, k.height, k.stack, k.height - 1, Truncate(k.stack, k.height - 1), 0, 3);
          stackElements := Truncate(stackElements, stackHeight - 1);
          stackHeight := stackHeight - 1;
          r := Success(None);
          OkWellFormed(Now());
          FedAfter(k, k, Now(), old(classes.expressions), classes.expressions, item, None);
        } else {
          r := FeedOperation(op);
        }
      } else {
        var operation := FeedPush(item);
        GrowsTransitive(k.height, k.stack, k.height, k.stack, stackHeight, stackElements, 0, 3);
        r := Success(operation);
      }
      if r.Success? {
        FedSound(k, Now(), fed, item);
        fed := fed + Lasting(item);
      }
    }

    method FeedPush(item: Item) returns (r: Option<StoreOperation>)
      requires Ok() && IsPushItem(item) && MayPush(item, classes.pushed)
      modifies `stackElements, `stackHeight, classes
      ensures Ok() && Steps(old(Now()), Now(), item)
      ensures Reported(old(classes.representatives), classes.representatives, r)
      ensures ReachGrows(old(stackHeight), old(stackElements), stackHeight, stackElements, 3)
      ensures old(Neat()) ==> Neat()
      ensures Remembers(old(classes.expressions), classes.expressions)
      ensures FedAs(old(Now()), Now(), old(classes.expressions), classes.expressions, item, r)
    {
      hide Quiet, FedAs, Looked, OwnClasses, Agrees, ValidInit, KnowledgeOk, TableOk, Reported, Steps, NoMemory, Means, Pushed, Tidy, IsValue, Usable, StackValues, ContentValues, Simplest, RecordedAs, Remembers, NewInputs, NoInputs, Sorted;
      ghost var k := Now();
      ValueList(k.reps, []);
      var id := classes.Find(item, [], 0);
      var reps := classes.representatives;
      FoundQuietly(old(classes.expressions), classes.expressions, Expr(item, Sorted(item, []), 0));
      KnownValuesGrow(k, reps);
      StackValuesChange(reps, stackElements, stackHeight + 1, id);
      PureFound(k.reps, reps, item, [], id);
      MeansShape(reps, item, [], id);
      GrowRefines(k, reps);
      GrowKnowledge(k, reps);
      PushStep(k.(reps := reps), item, id);
      PushedOk(k.(reps := reps), id);
      RefinesStep(k, k.(reps := reps), Pushed(k.(reps := reps), id), 0, item);
      ReportedPure(k.reps, reps);
      stackHeight := stackHeight + 1;
      stackElements := stackElements[stackHeight := id];
      PushedIs(k.(reps := reps), id);
      PushedIs(k, id);
      r := None;
      OkWellFormed(Now());
      FedPush(k, Now(), old(classes.expressions), classes.expressions, item, id);
    }

    method FeedDup(op: Opcode) returns (r: Result<Option<StoreOperation>>)
      requires Ok() && IsDup(op)
      modifies `stackElements, `stackHeight, classes
      ensures r.Success? ==>
                && Ok() && Steps(old(Now()), Now(), Operation(op))
                && Reported(old(classes.representatives), classes.representatives, r.value)
      ensures r.Success? && old(Neat()) ==> Neat()
      ensures r.Success? ==> ReachGrows(old(stackHeight), old(stackElements), stackHeight, stackElements, 17)
      ensures r.Failure? ==> r.error == Overflow && TooHigh(old(stackHeight), old(stackElements), 17)
      ensures Remembers(old(classes.expressions), classes.expressions)
      ensures r.Success? ==> FedAs(old(Now()), Now(), old(classes.expressions), classes.expressions, Operation(op), r.value)
    {
      hide FromHeight, FedAs, Looked, Remembers, OwnClasses, Agrees, ValidInit, TableOk, Reported, Steps, NoMemory, Refines, KnowledgeOk, ArgCount, Tidy, StackValues, ContentValues, Reach, ReachGrows, TooHigh;
      ghost var k := Now();
      var id := StackElement(stackHeight - (op - DUP1));
      LooksFromStart(k.height, k.stack, 16);
      if id.Failure? {
        LookFails(k.height, k.stack, k.height - (op - DUP1), 16);
        TooHighMore(k.height, k.stack, 16, 17);
        return Failure(id.error);
      }
      ghost var k1 := Now();
      DupStep(k1, op);
      HeldBelow(k1, k1.height - (op - DUP1), id.value);
      PushedOk(k1, id.value);
      TableFacts(op);
      RefinesStep(k, k1, Pushed(k1, id.value), op - DUP1 + 1, Operation(op));
      ReportedPure(k.reps, k1.reps);
      StackValuesChange(k1.reps, stackElements, stackHeight - (op - DUP1), 0);
      StackValuesChange(k1.reps, stackElements, stackHeight + 1, id.value);
      LookedAt(k.height, k.stack, k.stack, k.height - (op - DUP1), id.value, 16);
      PushGrows(k1.height, k1.stack, id.value);
      GrowsTransitive(k.height, k.stack, k1.height, k1.stack, k1.height + 1, k1.stack[k1.height + 1 := id.value], 16, 1);
      stackElements := stackElements[stackHeight + 1 := id.value];
      stackHeight := stackHeight + 1;
      r := Success(None);
      OkWellFormed(Now());
      FedAfter(k, k1, Now(), old(classes.expressions), classes.expressions, Operation(op), None);
    }

    method FeedSwap(op: Opcode) returns (r: Result<Option<StoreOperation>>)
      requires Ok() && IsSwap(op)
      modifies `stackElements, classes
      ensures r.Success? ==>
                && Ok() && Steps(old(Now()), Now(), Operation(op))
                && Reported(old(classes.representatives), classes.representatives, r.value)
      ensures r.Success? && old(Neat()) ==> Neat()
      ensures r.Success? ==> ReachGrows(old(stackHeight), old(stackElements), stackHeight, stackElements, 17)
      ensures r.Failure? ==> r.error == Overflow && TooHigh(old(stackHeight), old(stackElements), 17)
      ensures Remembers(old(classes.expressions), classes.expressions)
      ensures r.Success? ==> FedAs(old(Now()), Now(), old(classes.expressions), classes.expressions, Operation(op), r.value)
    {
      hide FromHeight, FedAs, Looked, Remembers, OwnClasses, Agrees, ValidInit, TableOk, Reported, Steps, NoMemory, Refines, KnowledgeOk, Tidy, StackValues, ContentValues, ArgCount, IsValidInstruction, Reach, ReachGrows, TooHigh;
      ghost var k := Now();
      var n := op - SWAP1 + 1;
      var looked := LookAtBoth(n);
      if looked.Failure? {
        return Failure(looked.error);
      }
      ghost var k2 := Now();
      SwapStep(k2, op);
      TableFacts(op);
      RefinesStep(k, k2, Swapped(k2, n), n + 1, Operation(op));
      SwappedOk(k2, n);
      ReportedPure(k.reps, k2.reps);
      SwapGrows(stackHeight, stackElements, n);
      GrowsTransitive(k.height, k.stack, k2.height, k2.stack, k2.height, Swapped(k2, n).stack, 17, 0);
      StackValuesChange(k2.reps, stackElements, stackHeight, stackElements[stackHeight - n]);
      StackValuesChange(k2.reps, stackElements, stackHeight - n, 0);
      StackValuesChange(k2.reps, stackElements[stackHeight := stackElements[stackHeight - n]], stackHeight - n, stackElements[stackHeight]);
      stackElements := stackElements[stackHeight := stackElements[stackHeight - n]][stackHeight - n := stackElements[stackHeight]];
      r := Success(None);
      OkWellFormed(Now());
      FedAfter(k, k2, Now(), old(classes.expressions), classes.expressions, Operation(op), None);
    }

    /** Makes sure that the top of the stack and the element n below it are known. */
    method LookAtBoth(n: nat) returns (r: Result<()>)
      requires Ok() && 1 <= n <= 16
      modifies `stackElements, classes
      ensures r.Success? ==>
                && Ok() && PureGrowth(old(classes.representatives), classes.representatives)
                && Refines(old(Now()), Now(), n + 1)
                && stackHeight in stackElements && stackHeight - n in stackElements
      ensures r.Success? && old(Neat()) ==> Neat()
      ensures r.Success? ==> ReachGrows(old(stackHeight), old(stackElements), stackHeight, stackElements, 17)
      ensures r.Failure? ==> r.error == Overflow && TooHigh(old(stackHeight), old(stackElements), 17)
      ensures Learns(old(classes.expressions), classes.expressions, old(stackElements), stackElements)
      ensures r.Success? ==> Looked(classes.expressions, old(stackElements), stackElements)
    {
      hide FromHeight, Looked, Remembers, OwnClasses, Agrees, ValidInit, TableOk, NoMemory, Refines, KnowledgeOk, Tidy, KnownValues, Reach, ReachGrows, TooHigh;
      ghost var k := Now();
      LooksFromStart(k.height, k.stack, 17);
      var a := StackElement(stackHeight);
      if a.Failure? {
        LookFails(k.height, k.stack, k.height, 17);
        return Failure(a.error);
      }
      ghost var k1, known := Now(), classes.expressions;
      var b := StackElement(stackHeight - n);
      LookedAt(k.height, k.stack, k.stack, k.height, a.value, 17);
      LearnsBoth(old(classes.expressions), known, classes.expressions, k.stack, k1.stack, stackElements);
      if b.Failure? {
        LookFails(k.height, k.stack, k.height - n, 17);
        return Failure(b.error);
      }
      ghost var k2 := Now();
      LookedBoth(known, classes.expressions, k.stack, k1.stack, k2.stack);
      RefinesTransitive(k, k1, k2, 1, n + 1);
      PureGrowthTransitive(k.reps, k1.reps, k2.reps);
      LookedAt(k.height, k.stack, k1.stack, k.height - n, b.value, 17);
      r := Success(());
    }

    /** Instructions other than DUP, SWAP and POP. */
    method FeedOperation(op: Opcode) returns (r: Result<Option<StoreOperation>>)
      requires Ok() && !BreaksBlock(Operation(op), false) && !IsDup(op) && !IsSwap(op) && op != POP
      modifies this, classes
      ensures fed == old(fed)
      ensures r.Success? ==>
                && Ok() && Follows(old(Now()), Now(), Operation(op))
                && Reported(old(classes.representatives), classes.representatives, r.value)
      ensures r.Success? && old(Neat()) ==> Neat()
      ensures r.Success? ==> ReachGrows(old(stackHeight), old(stackElements), stackHeight, stackElements, 17)
      ensures r.Failure? ==> r.error == Overflow && TooHigh(old(stackHeight), old(stackElements), 17)
      ensures Remembers(old(classes.expressions), classes.expressions)
      ensures r.Success? ==> FedAs(old(Now()), Now(), old(classes.expressions), classes.expressions, Operation(op), r.value)
    {
      hide FromHeight, FedAs, Looked, Remembers, Operated, OwnClasses, Agrees, ValidInit, TableOk, Reported, Steps, Refines, NoMemory, KnowledgeOk, ArgumentsKnown, HasSideEffects, ArgCount, RetCount, Tidy, KnownValues, Reach, ReachGrows, TooHigh;
      ghost var k := Now();
      FeedableArguments(op);
      var args := TopElements(ArgCount(op));
      if args.Failure? {
        TooHighMore(k.height, k.stack, ArgCount(op), 17);
        return Failure(args.error);
      }
      ghost var k1, known := Now(), classes.expressions;
      var operation;
      if op == SSTORE || op == MSTORE {
        operation := FeedStore(op, args.value);
      } else if op == SLOAD || op == MLOAD {
        operation := FeedLoad(op, args.value);
      } else {
        PlainOperation(op);
        operation := FeedPlain(op, args.value);
      }
      RefinesFollows(k, k1, Now(), ArgCount(op), Operation(op));
      ReportedLater(k.reps, k1.reps, classes.representatives, operation);
      GrowsTransitive(k.height, k.stack, k1.height, k1.stack, stackHeight, stackElements, ArgCount(op), 3);
      r := Success(operation);
      LearnsThenQuiet(old(classes.expressions), known, classes.expressions, k.stack, k1.stack);
      LookedLater(known, classes.expressions, k.stack, k1.stack);
      OkWellFormed(Now());
      FedOperation(k, k1, Now(), old(classes.expressions), classes.expressions, op, args.value, operation);
    }

    method FeedStore(op: Opcode, args: seq<Id>) returns (r: Option<StoreOperation>)
      requires Ok() && IsStore(op) && |args| == ArgCount(op) && ArgumentsKnown(Now(), args)
      modifies this, classes
      ensures fed == old(fed)
      ensures Ok() && Steps(old(Now()), Now(), Operation(op))
      ensures Reported(old(classes.representatives), classes.representatives, r)
      ensures ReachGrows(old(stackHeight), old(stackElements), stackHeight, stackElements, 3)
      ensures old(Neat()) ==> Neat()
      ensures Quiet(old(classes.expressions), classes.expressions)
      ensures Operated(old(Now()), Now(), classes.expressions, op, args, r)
    {
      hide Quiet, Operated, Wrote, Remembers, OwnClasses, Agrees, ValidInit, TableOk, Reported, Steps, NoMemory, KnowledgeOk, ArgumentsKnown, StoresTo, Tidy, IsValue, StackValues, ContentValues, Reach, ReachGrows;
      ghost var k := Now();
      KnownArguments(k, args);
      ArgumentsAreValues(k, args);
      ValueList(k.reps, args);
      assert args == [args[0], args[1]];
      if op == SSTORE {
        r := StoreInStorage(args[0], args[1]);
      } else {
        r := StoreInMemory(args[0], args[1]);
      }
      ghost var k1 := Now();
      StoreStep(k, k1, op, args[0], args[1]);
      ConsumedOk(Now(), 2);
      StackValuesChange(classes.representatives, stackElements, stackHeight - 2, 0);
      ConsumeGrows(stackHeight, stackElements, 2, 0);
      stackElements := Truncate(stackElements, stackHeight - 2);
      stackHeight := stackHeight - 2;
      OperatedStore(k, k1, Now(), classes.expressions, op, args, r);
    }

    method FeedLoad(op: Opcode, args: seq<Id>) returns (r: Option<StoreOperation>)
      requires Ok() && IsLoad(op) && |args| == ArgCount(op) && ArgumentsKnown(Now(), args)
      modifies this, classes
      ensures fed == old(fed)
      ensures Ok() && Steps(old(Now()), Now(), Operation(op))
      ensures Reported(old(classes.representatives), classes.representatives, r)
      ensures ReachGrows(old(stackHeight), old(stackElements), stackHeight, stackElements, 3)
      ensures old(Neat()) ==> Neat()
      ensures Quiet(old(classes.expressions), classes.expressions)
      ensures Operated(old(Now()), Now(), classes.expressions, op, args, r)
    {
      hide Quiet, Operated, Remembers, Read, OwnClasses, Agrees, ValidInit, TableOk, Reported, Steps, NoMemory, KnowledgeOk, ArgumentsKnown, Refines, Tidy, IsValue, StackValues, ContentValues, Reach, ReachGrows;
      ghost var k := Now();
      KnownArguments(k, args);
      ArgumentsAreValues(k, args);
      ValueList(k.reps, args);
      assert args == [args[0]];
      var id: Id;
      if op == SLOAD {
        id := LoadFromStorage(args[0]);
      } else {
        id := LoadFromMemory(args[0]);
      }
      ghost var k1 := Now();
      SameTop(k, k1, args);
      LoadStep(k1, op, args[0], id);
      LoadedBelow(k1, op, args[0]);
      RefinesStep(k, k1, Pushed(Consumed(k1, 1), id), 0, Operation(op));
      ConsumedOk(k1, 1);
      PushedOk(Consumed(k1, 1), id);
      SetThenTruncate(k1, 1, id);
      StackValuesChange(classes.representatives, stackElements, stackHeight, id);
      StackValuesChange(classes.representatives, stackElements[stackHeight := id], stackHeight, id);
      ConsumeGrows(stackHeight, stackElements, 1, id);
      stackElements := Truncate(stackElements[stackHeight := id], stackHeight);
      r := None;
      OperatedLoad(k, k1, Now(), classes.expressions, op, args, id);
    }

    /** Instructions whose result depends on their arguments and the outside only. */
    method FeedPlain(op: Opcode, args: seq<Id>) returns (r: Option<StoreOperation>)
      requires Ok() && |args| == ArgCount(op) && ArgumentsKnown(Now(), args)
      requires !HasSideEffects(op) && !IsMemoryItem(Operation(op)) && op != POP && RetCount(op) <= 1
      requires RetCount(op) == 1 ==> IsPure(op)
      modifies this, classes
      ensures fed == old(fed)
      ensures Ok() && Follows(old(Now()), Now(), Operation(op))
      ensures Reported(old(classes.representatives), classes.representatives, r)
      ensures |args| <= 2 ==> ReachGrows(old(stackHeight), old(stackElements), stackHeight, stackElements, 3)
      ensures |args| <= 2 && old(Neat()) ==> Neat()
      ensures Quiet(old(classes.expressions), classes.expressions)
      ensures Operated(old(Now()), Now(), classes.expressions, op, args, r)
    {
      hide Quiet, Operated, Remembers, OwnClasses, Agrees, ValidInit, TableOk, Reported, Steps, NoMemory, KnowledgeOk, ArgumentsKnown, HasSideEffects, IsPure, ArgCount, RetCount, Tidy, KnownValues, Reach, ReachGrows;
      ghost var k := Now();
      r := None;
      ChargeShape();
      if RetCount(op) == 0 {
        QuietSelf(classes.expressions);
        PureGrowthOne(k.reps, Expr(Push(0), [], 0));
        ReportedPure(k.reps, k.reps);
        FeedSilent(op, args);
      } else {
        FeedComputed(op, args);
        ReportedPure(k.reps, classes.representatives);
      }
    }

    /** Takes the arguments of an instruction without result off the stack. */
    method FeedSilent(op: Opcode, args: seq<Id>)
      requires Ok() && |args| == ArgCount(op) && ArgumentsKnown(Now(), args)
      requires !HasSideEffects(op) && !IsMemoryItem(Operation(op)) && op != POP && RetCount(op) == 0
      modifies `stackElements, `stackHeight
      ensures Ok() && Follows(old(Now()), Now(), Operation(op))
      ensures |args| <= 2 ==> ReachGrows(old(stackHeight), old(stackElements), stackHeight, stackElements, 3)
      ensures old(Neat()) ==> Neat()
      ensures Operated(old(Now()), Now(), classes.expressions, op, args, None)
    {
      hide Operated, OwnClasses, Agrees, ValidInit, TableOk, Steps, NoMemory, KnowledgeOk, ArgumentsKnown, Refines, HasSideEffects, ArgCount, RetCount, Tidy, IsValue, StackValues, ContentValues, Reach, ReachGrows, Truncate;
      ghost var k := Now();
      var n := |args|;
      KnownArguments(k, args);
      ChargeShape();
      if op == FREEGAS {
        ConsumedNothing(k);
        RefinesReflexive(k);
      } else {
        SilentStep(k, op);
      }
      ConsumedOk(k, n);
      StackValuesChange(k.reps, stackElements, stackHeight - n, 0);
      if n <= 2 {
        ConsumeGrows(stackHeight, stackElements, n, 0);
      }
      stackElements := Truncate(stackElements, stackHeight - n);
      stackHeight := stackHeight - n;
      OperatedPlain(k, k, Now(), classes.expressions, op, args, 0);
    }

    /** Replaces the arguments of an instruction by the class of its result. */
    method FeedComputed(op: Opcode, args: seq<Id>)
      requires Ok() && |args| == ArgCount(op) && ArgumentsKnown(Now(), args)
      requires !HasSideEffects(op) && !IsMemoryItem(Operation(op)) && RetCount(op) == 1 && IsPure(op)
      modifies `stackElements, `stackHeight, classes
      ensures Ok() && Steps(old(Now()), Now(), Operation(op)) && PureGrowth(old(classes.representatives), classes.representatives)
      ensures |args| <= 2 ==> ReachGrows(old(stackHeight), old(stackElements), stackHeight, stackElements, 3)
      ensures |args| <= 2 && old(Neat()) ==> Neat()
      ensures Quiet(old(classes.expressions), classes.expressions)
      ensures Operated(old(Now()), Now(), classes.expressions, op, args, None)
    {
      hide Quiet, Operated, Remembers, OwnClasses, Agrees, ValidInit, TableOk, Steps, NoMemory, KnowledgeOk, ArgumentsKnown, Refines, Means, HasSideEffects, IsPure, ArgCount, RetCount, Tidy, IsValue, Usable, KnownValues, Reach, ReachGrows, Truncate, Simplest, RecordedAs, Sorted;
      ghost var k := Now();
      var n := |args|;
      KnownArguments(k, args);
      if n <= 2 {
        ArgumentsAreValues(k, args);
      }
      var id := classes.Find(Operation(op), args, 0);
      ghost var k1 := Now();
      FoundQuietly(old(classes.expressions), classes.expressions, Expr(Operation(op), Sorted(Operation(op), args), 0));
      PureFound(k.reps, k1.reps, Operation(op), args, id);
      MeansShape(k1.reps, Operation(op), args, id);
      GrowRefines(k, k1.reps);
      GrowKnowledge(k, k1.reps);
      SameTop(k, k1, args);
      PureStep(k1, op, args, id);
      RefinesStep(k, k1, Pushed(Consumed(k1, n), id), 0, Operation(op));
      ConsumedOk(k1, n);
      PushedOk(Consumed(k1, n), id);
      SetThenTruncate(k1, n, id);
      ComputedValues(k, k1, n, id);
      var height := stackHeight + 1 - n;
      var elements := Truncate(stackElements[height := id], height);
      if n <= 2 {
        ConsumeGrows(stackHeight, stackElements, n, id);
        assert ReachGrows(k.height, k.stack, height, elements, 3);
      }
      stackElements, stackHeight := elements, height;
      OperatedPlain(k, k1, Now(), classes.expressions, op, args, id);
    }
  }
}
