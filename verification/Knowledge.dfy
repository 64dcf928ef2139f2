/** What is known about the state of the machine at one point of a block, as a value, and what it
    means for a concrete state to agree with it. */
module Knowing {
  import opened Words
  import opened Instructions
  import opened Items
  import opened Machine
  import opened MemoryLaws
  import opened Rules
  import opened Semantics
  import opened Classes

  /** Heights count from the top of the stack at the start of the block, which has height zero. */
  datatype Knowledge = Knowledge(
    reps: seq<Expr>,
    height: int,
    stack: map<int, Id>,
    storage: map<Id, Id>,
    memory: map<Id, Id>,
    seqNr: nat)

  predicate IdsBelow(m: map<int, Id>, n: nat) {
    forall k | k in m :: m[k] < n
  }

  predicate ContentBelow(m: map<Id, Id>, n: nat) {
    forall k | k in m :: k < n && m[k] < n
  }

  /** Loads carry odd and stores even sequence numbers, and both are listed in their order. */
  predicate Chronological(reps: seq<Expr>, seqNr: nat) {
    && (forall i | 0 <= i < |reps| :: Sequenced(reps[i], seqNr))
    && (forall i, j | 0 <= i < j < |reps| :: InOrder(reps[i], reps[j]))
  }

  predicate Sequenced(e: Expr, seqNr: nat) {
    if IsMemoryItem(e.item) then
      1 <= e.seqNr <= seqNr && (IsStoreItem(e.item) <==> e.seqNr % 2 == 0)
    else e.seqNr == 0
  }

  predicate InOrder(e: Expr, f: Expr) {
    IsMemoryItem(e.item) && IsMemoryItem(f.item) ==>
      e.seqNr <= f.seqNr && (IsStoreItem(e.item) ==> e.seqNr < f.seqNr)
  }

  predicate KnowledgeOk(k: Knowledge) {
    && WellFormed(k.reps)
    && IdsBelow(k.stack, |k.reps|)
    && (forall h | h in k.stack :: h <= k.height)
    && (forall h | 0 < h <= k.height :: h in k.stack)
    && ContentBelow(k.storage, |k.reps|)
    && ContentBelow(k.memory, |k.reps|)
    && Chronological(k.reps, k.seqNr)
    && k.seqNr % 2 == 1
  }

  // ----- agreement with a concrete state -----

  ghost predicate StackAgrees(nu: seq<Word>, base: seq<Word>, height: int, elements: map<int, Id>, stack: seq<Word>)
    requires IdsBelow(elements, |nu|)
  {
    && |stack| == |base| + height
    && (forall h | h in elements :: ElementAgrees(nu, base, stack, h, elements[h]))
    && (forall i | 0 <= i < |stack| :: i - |base| + 1 in elements || Untouched(base, stack, i))
  }

  /** The element at height h has the value of the class. */
  ghost predicate ElementAgrees(nu: seq<Word>, base: seq<Word>, stack: seq<Word>, h: int, id: Id)
    requires id < |nu|
  {
    0 <= |base| - 1 + h < |stack| && stack[|base| - 1 + h] == nu[id]
  }

  ghost predicate Untouched(base: seq<Word>, stack: seq<Word>, i: int) {
    0 <= i < |base| && i < |stack| && stack[i] == base[i]
  }

  ghost predicate ContentAgrees(nu: seq<Word>, load: Opcode, content: map<Id, Id>, w: World)
    requires ContentBelow(content, |nu|)
  {
    forall s | s in content :: Load(load, nu[s], w) == nu[content[s]]
  }

  /** Everything known holds of this stack and this world, and the stores of the table lead there. */
  ghost predicate Agrees(init: Init, k: Knowledge, stack: seq<Word>, w: World)
    requires KnowledgeOk(k)
  {
    var nu := Nu(init, k.reps);
    && StackAgrees(nu, init.stack, k.height, k.stack, stack)
    && w == WorldOf(init, k.reps)
    && ContentAgrees(nu, SLOAD, k.storage, w)
    && ContentAgrees(nu, MLOAD, k.memory, w)
  }

  /** Learning more about a state in which at least n elements are on the stack. */
  ghost predicate Refines(k: Knowledge, k': Knowledge, n: int) {
    && KnowledgeOk(k) && KnowledgeOk(k')
    && forall init, stack, w | ValidInit(init) && Agrees(init, k, stack, w) && |stack| >= n :: Agrees(init, k', stack, w)
  }

  lemma RefinesTransitive(a: Knowledge, b: Knowledge, c: Knowledge, m: int, n: int)
    requires Refines(a, b, m) && Refines(b, c, n)
    ensures Refines(a, c, if m < n then n else m)
  {
    hide KnowledgeOk, Agrees, ValidInit;
  }

  lemma RefinesReflexive(k: Knowledge)
    requires KnowledgeOk(k)
    ensures forall n :: Refines(k, k, n)
  {
    hide KnowledgeOk, Agrees, ValidInit;
  }

  // ----- growing the table -----

  lemma ChronologicalGrows(reps: seq<Expr>, bigger: seq<Expr>, seqNr: nat)
    requires Chronological(reps, seqNr) && PureGrowth(reps, bigger)
    ensures Chronological(bigger, seqNr)
  {
    hide IsMemoryItem, IsStoreItem, InOrder;
    forall i | 0 <= i < |bigger|
      ensures Sequenced(bigger[i], seqNr)
      ensures i >= |reps| ==> IsUnsequenced(bigger[i])
    {
      if i >= |reps| {
        assert bigger[i] == bigger[|reps|..][i - |reps|];
      } else {
        assert bigger[i] == reps[i];
      }
    }
    forall i, j | 0 <= i < j < |bigger|
      ensures InOrder(bigger[i], bigger[j])
    {
      if j >= |reps| {
        UnsequencedInOrder(bigger[i], bigger[j]);
      } else {
        assert bigger[i] == reps[i] && bigger[j] == reps[j];
      }
    }
  }

  lemma UnsequencedInOrder(e: Expr, f: Expr)
    requires IsUnsequenced(e) || IsUnsequenced(f)
    ensures InOrder(e, f)
  {
  }

  /** The values and the world are those of the smaller table. */
  lemma GrowthKeepsMeaning(init: Init, reps: seq<Expr>, bigger: seq<Expr>)
    requires WellFormed(reps) && WellFormed(bigger) && PureGrowth(reps, bigger)
    ensures Nu(init, bigger)[..|reps|] == Nu(init, reps)
    ensures WorldOf(init, bigger) == WorldOf(init, reps)
  {
    hide Interp, Nu, WorldOf;
    InterpPrefix(init, bigger, |reps|);
    assert bigger[..|reps|] == reps;
    UnsequencedNoStores(bigger[|reps|..]);
  }

  lemma UnsequencedNoStores(reps: seq<Expr>)
    requires NoMemory(reps)
    ensures NoStores(reps)
  {
    forall i | 0 <= i < |reps|
      ensures !IsStoreItem(reps[i].item)
    {
      assert IsUnsequenced(reps[i]);
    }
  }

  lemma GrowAgrees(init: Init, k: Knowledge, reps: seq<Expr>, stack: seq<Word>, w: World)
    requires KnowledgeOk(k) && WellFormed(reps) && PureGrowth(k.reps, reps) && Agrees(init, k, stack, w)
    ensures KnowledgeOk(k.(reps := reps)) && Agrees(init, k.(reps := reps), stack, w)
  {
    hide Interp, Nu, WorldOf, Chronological, Load, NoMemory, StackAgrees, ContentAgrees, WellFormed;
    GrowKnowledge(k, reps);
    GrowthKeepsMeaning(init, k.reps, reps);
    var nu, nu' := Nu(init, k.reps), Nu(init, reps);
    StackExtends(nu, nu', init.stack, k.height, k.stack, stack);
    ContentExtends(nu, nu', SLOAD, k.storage, w);
    ContentExtends(nu, nu', MLOAD, k.memory, w);
  }

  lemma GrowKnowledge(k: Knowledge, reps: seq<Expr>)
    requires KnowledgeOk(k) && WellFormed(reps) && PureGrowth(k.reps, reps)
    ensures KnowledgeOk(k.(reps := reps))
  {
    hide Chronological;
    ChronologicalGrows(k.reps, reps, k.seqNr);
  }

  lemma GrowRefines(k: Knowledge, reps: seq<Expr>)
    requires KnowledgeOk(k) && WellFormed(reps) && PureGrowth(k.reps, reps)
    ensures Refines(k, k.(reps := reps), 0)
  {
    hide Agrees, KnowledgeOk, PureGrowth, ValidInit;
    GrowKnowledge(k, reps);
    forall init, stack, w | ValidInit(init) && Agrees(init, k, stack, w)
      ensures Agrees(init, k.(reps := reps), stack, w)
    {
      GrowAgrees(init, k, reps, stack, w);
    }
  }

  // ----- elements of the initial stack -----

  const HEIGHT_LIMIT: int := 0x8000_0000

  lemma SignedHeight(h: int)
    requires -HEIGHT_LIMIT <= h < HEIGHT_LIMIT
    ensures ToSigned(Wrap(h)) == h
  {
    if h < 0 {
      WrapStep(h);
    }
  }

  /** A height not assigned yet holds what the initial stack holds there. */
  lemma ElementRefines(k: Knowledge, h: int, id: Id)
    requires KnowledgeOk(k) && h !in k.stack && h <= k.height && -HEIGHT_LIMIT <= h < HEIGHT_LIMIT
    requires Means(k.reps, UndefinedItem(Wrap(h)), [], id)
    ensures Refines(k, k.(stack := k.stack[h := id]), k.height - h + 1)
  {
    hide Interp, Nu, WorldOf, Chronological, Load, ContentAgrees, ContentBelow, ValidInit, StackAgrees, MeansAt;
    MeansShape(k.reps, UndefinedItem(Wrap(h)), [], id);
    var k' := k.(stack := k.stack[h := id]);
    forall init, stack, w | ValidInit(init) && Agrees(init, k, stack, w) && |stack| >= k.height - h + 1
      ensures Agrees(init, k', stack, w)
    {
      UndefinedIs(init, k.reps, h, id);
      DefineElement(Nu(init, k.reps), init.stack, k.height, k.stack, stack, h, id);
    }
  }

  lemma UndefinedIs(init: Init, reps: seq<Expr>, h: int, id: Id)
    requires WellFormed(reps) && ValidInit(init) && -HEIGHT_LIMIT <= h < HEIGHT_LIMIT
    requires Means(reps, UndefinedItem(Wrap(h)), [], id)
    ensures id < |reps| && Nu(init, reps)[id] == StackAt(init.stack, h)
  {
    hide Interp, Nu, ValidInit;
    SignedHeight(h);
    assert MeansAt(init, reps, UndefinedItem(Wrap(h)), [], id);
  }

  lemma DefineElement(nu: seq<Word>, base: seq<Word>, height: int, elements: map<int, Id>, stack: seq<Word>, h: int, id: Id)
    requires IdsBelow(elements, |nu|) && id < |nu| && nu[id] == StackAt(base, h)
    requires StackAgrees(nu, base, height, elements, stack)
    requires h !in elements && h <= height && |stack| >= height - h + 1
    ensures StackAgrees(nu, base, height, elements[h := id], stack)
  {
    var i := |base| - 1 + h;
    assert 0 <= i < |stack| && i - |base| + 1 == h;
    assert Untouched(base, stack, i);
    assert ElementAgrees(nu, base, stack, h, id);
  }

  // ----- stack operations -----

  function Truncate(elements: map<int, Id>, height: int): map<int, Id> {
    map h | h in elements && h <= height :: elements[h]
  }

  lemma PopElements(nu: seq<Word>, base: seq<Word>, height: int, elements: map<int, Id>, stack: seq<Word>, n: nat)
    requires IdsBelow(elements, |nu|) && StackAgrees(nu, base, height, elements, stack) && n <= |stack|
    ensures StackAgrees(nu, base, height - n, Truncate(elements, height - n), Drop(stack, n))
  {
    var elements', stack' := Truncate(elements, height - n), Drop(stack, n);
    forall h | h in elements'
      ensures ElementAgrees(nu, base, stack', h, elements'[h])
    {
      assert ElementAgrees(nu, base, stack, h, elements[h]);
    }
    forall i | 0 <= i < |stack'|
      ensures i - |base| + 1 in elements' || Untouched(base, stack', i)
    {
      assert i - |base| + 1 in elements || Untouched(base, stack, i);
    }
  }

  lemma PushElement(nu: seq<Word>, base: seq<Word>, height: int, elements: map<int, Id>, stack: seq<Word>, id: Id)
    requires IdsBelow(elements, |nu|) && StackAgrees(nu, base, height, elements, stack) && id < |nu|
    ensures StackAgrees(nu, base, height + 1, elements[height + 1 := id], stack + [nu[id]])
  {
    var stack' := stack + [nu[id]];
    var elements' := elements[height + 1 := id];
    forall h | h in elements'
      ensures ElementAgrees(nu, base, stack', h, elements'[h])
    {
      if h != height + 1 {
        assert ElementAgrees(nu, base, stack, h, elements[h]);
      }
    }
    forall i | 0 <= i < |stack'|
      ensures i - |base| + 1 in elements' || Untouched(base, stack', i)
    {
      if i < |stack| {
        assert i - |base| + 1 in elements || Untouched(base, stack, i);
      }
    }
  }

  function Exchanged(elements: map<int, Id>, a: int, b: int): map<int, Id>
    requires a in elements && b in elements
  {
    elements[a := elements[b]][b := elements[a]]
  }

  lemma SwapElements(nu: seq<Word>, base: seq<Word>, height: int, elements: map<int, Id>, stack: seq<Word>, n: nat)
    requires IdsBelow(elements, |nu|) && StackAgrees(nu, base, height, elements, stack) && 0 < n < |stack|
    requires height in elements && height - n in elements
    ensures StackAgrees(nu, base, height, Exchanged(elements, height, height - n), SwapTop(stack, n))
  {
    var elements', stack' := Exchanged(elements, height, height - n), SwapTop(stack, n);
    assert ElementAgrees(nu, base, stack, height, elements[height]);
    assert ElementAgrees(nu, base, stack, height - n, elements[height - n]);
    forall h | h in elements'
      ensures ElementAgrees(nu, base, stack', h, elements'[h])
    {
      assert ElementAgrees(nu, base, stack, h, elements[h]);
    }
    forall i | 0 <= i < |stack'|
      ensures i - |base| + 1 in elements' || Untouched(base, stack', i)
    {
      assert i - |base| + 1 in elements || Untouched(base, stack, i);
    }
  }

  // ----- stores -----

  function LoadOf(store: Opcode): Opcode {
    if store == SSTORE then SLOAD else MLOAD
  }

  lemma LoadAfterStore(store: Opcode, a: Word, v: Word, w: World)
    requires IsStore(store)
    ensures Load(LoadOf(store), a, Store(store, a, v, w)) == v
  {
    hide ReadWord, WriteWord;
    ReadBack(w.memory, a, v);
  }

  predicate Apart(store: Opcode, a: Word, b: Word) {
    if store == SSTORE then a != b else Abs(a as int - b as int) >= 32
  }

  lemma LoadApart(store: Opcode, a: Word, v: Word, b: Word, w: World)
    requires IsStore(store) && Apart(store, b, a)
    ensures Load(LoadOf(store), b, Store(store, a, v, w)) == Load(LoadOf(store), b, w)
  {
    hide ReadWord, WriteWord;
    if store == MSTORE {
      ReadApart(w.memory, a, b, v);
    }
  }

  lemma LoadOther(store: Opcode, load: Opcode, a: Word, v: Word, b: Word, w: World)
    requires IsStore(store) && IsLoad(load) && load != LoadOf(store)
    ensures Load(load, b, Store(store, a, v, w)) == Load(load, b, w)
  {
    hide ReadWord, WriteWord;
  }

  /** Storing what is already there changes nothing. */
  lemma StoreSame(store: Opcode, a: Word, w: World)
    requires IsStore(store)
    ensures Store(store, a, Load(LoadOf(store), a, w), w) == w
  {
    hide ReadWord, WriteWord;
    if store == SSTORE {
      assert w.storage[a := Content(Slot(w.storage, a))] == w.storage;
    } else {
      WriteSame(w.memory, a);
    }
  }

  /** What a store keeps: other slots, and for storage also slots that hold the stored value. */
  ghost predicate Survives(reps: seq<Expr>, store: Opcode, s: Id, slot: Id, held: Id, value: Id)
    requires WellFormed(reps)
  {
    if store == SSTORE then AlwaysDifferent(reps, s, slot) || held == value else AlwaysApart(reps, s, slot)
  }

  ghost predicate Surviving(reps: seq<Expr>, store: Opcode, content: map<Id, Id>, kept: map<Id, Id>, slot: Id, value: Id)
    requires WellFormed(reps)
  {
    forall s | s in kept :: s in content && kept[s] == content[s] && Survives(reps, store, s, slot, content[s], value)
  }

  lemma SurvivesAt(init: Init, reps: seq<Expr>, store: Opcode, s: Id, slot: Id, held: Id, value: Id, w: World)
    requires WellFormed(reps) && ValidInit(init) && IsStore(store) && s < |reps| && slot < |reps| && held < |reps| && value < |reps|
    requires Survives(reps, store, s, slot, held, value)
    requires Load(LoadOf(store), Nu(init, reps)[s], w) == Nu(init, reps)[held]
    ensures Load(LoadOf(store), Nu(init, reps)[s], Store(store, Nu(init, reps)[slot], Nu(init, reps)[value], w)) == Nu(init, reps)[held]
  {
    hide Nu, Load, Store, ValidInit;
    var nu := Nu(init, reps);
    if store == SSTORE && nu[s] == nu[slot] {
      assert held == value;
      LoadAfterStore(store, nu[slot], nu[value], w);
    } else {
      LoadApart(store, nu[slot], nu[value], nu[s], w);
    }
  }

  lemma StoreContent(init: Init, reps: seq<Expr>, store: Opcode, content: map<Id, Id>, kept: map<Id, Id>, slot: Id, value: Id, w: World)
    requires WellFormed(reps) && ValidInit(init) && IsStore(store) && slot < |reps| && value < |reps|
    requires ContentBelow(content, |reps|) && ContentAgrees(Nu(init, reps), LoadOf(store), content, w)
    requires Surviving(reps, store, content, kept, slot, value)
    ensures ContentBelow(kept, |reps|)
    ensures ContentAgrees(Nu(init, reps), LoadOf(store), kept[slot := value],
                          Store(store, Nu(init, reps)[slot], Nu(init, reps)[value], w))
  {
    hide Nu, Load, Store, ValidInit, Survives, LoadOf;
    var nu := Nu(init, reps);
    var after := kept[slot := value];
    forall s | s in after
      ensures Load(LoadOf(store), nu[s], Store(store, nu[slot], nu[value], w)) == nu[after[s]]
    {
      if s == slot {
        LoadAfterStore(store, nu[slot], nu[value], w);
      } else {
        SurvivesAt(init, reps, store, s, slot, content[s], value, w);
      }
    }
  }

  lemma OtherContent(nu: seq<Word>, store: Opcode, load: Opcode, content: map<Id, Id>, a: Word, v: Word, w: World)
    requires IsStore(store) && IsLoad(load) && load != LoadOf(store)
    requires ContentBelow(content, |nu|) && ContentAgrees(nu, load, content, w)
    ensures ContentAgrees(nu, load, content, Store(store, a, v, w))
  {
    hide Load, Store, LoadOf;
    forall s | s in content
      ensures Load(load, nu[s], Store(store, a, v, w)) == nu[content[s]]
    {
      LoadOther(store, load, a, v, nu[s], w);
    }
  }

  // ----- effects of items on what is known -----

  /** Executing the item leads from states that agree with k to states that agree with k'. */
  ghost predicate Steps(k: Knowledge, k': Knowledge, item: Item) {
    && KnowledgeOk(k) && KnowledgeOk(k')
    && forall init, stack, w | ValidInit(init) && Agrees(init, k, stack, w) :: StepsAt(init, k', item, stack, w)
  }

  ghost predicate StepsAt(init: Init, k': Knowledge, item: Item, stack: seq<Word>, w: World)
    requires KnowledgeOk(k')
  {
    var r := ExecItem(init.env, item, stack, w);
    r.Fail? || (r.Next? && Agrees(init, k', r.stack, r.world))
  }

  lemma RefinesStep(k: Knowledge, k1: Knowledge, k': Knowledge, n: int, item: Item)
    requires Refines(k, k1, n) && Steps(k1, k', item) && n <= Arguments(item)
    ensures Steps(k, k', item)
  {
    hide KnowledgeOk, Agrees, ValidInit, ExecItem, Arguments;
    forall init, stack, w | ValidInit(init) && Agrees(init, k, stack, w)
      ensures StepsAt(init, k', item, stack, w)
    {
      if |stack| < n {
        TooFewArguments(init.env, item, stack, w);
      } else {
        assert Agrees(init, k1, stack, w);
        assert StepsAt(init, k', item, stack, w);
      }
    }
  }

  lemma TooFewArguments(env: Env, item: Item, stack: seq<Word>, w: World)
    requires |stack| < Arguments(item)
    ensures ExecItem(env, item, stack, w).Fail?
  {
    hide ArgCount, IsDup, IsSwap, IsValidInstruction;
  }

  function Pushed(k: Knowledge, id: Id): Knowledge {
    k.(height := k.height + 1, stack := k.stack[k.height + 1 := id])
  }

  function Consumed(k: Knowledge, n: nat): Knowledge {
    k.(height := k.height - n, stack := Truncate(k.stack, k.height - n))
  }

  lemma PushedAgrees(init: Init, k: Knowledge, id: Id, stack: seq<Word>, w: World)
    requires KnowledgeOk(k) && Agrees(init, k, stack, w) && id < |k.reps|
    ensures KnowledgeOk(Pushed(k, id)) && Agrees(init, Pushed(k, id), stack + [Nu(init, k.reps)[id]], w)
  {
    hide Interp, Nu, WorldOf, Chronological, Load, ContentAgrees, ContentBelow, StackAgrees;
    PushElement(Nu(init, k.reps), init.stack, k.height, k.stack, stack, id);
  }

  lemma PushedOk(k: Knowledge, id: Id)
    requires KnowledgeOk(k) && id < |k.reps|
    ensures KnowledgeOk(Pushed(k, id))
  {
    hide WellFormed, Chronological, ContentBelow;
  }

  lemma ConsumedAgrees(init: Init, k: Knowledge, n: nat, stack: seq<Word>, w: World)
    requires KnowledgeOk(k) && Agrees(init, k, stack, w) && n <= |stack|
    ensures KnowledgeOk(Consumed(k, n)) && Agrees(init, Consumed(k, n), Drop(stack, n), w)
  {
    hide Interp, Nu, WorldOf, Chronological, Load, ContentAgrees, ContentBelow, StackAgrees;
    PopElements(Nu(init, k.reps), init.stack, k.height, k.stack, stack, n);
  }

  lemma ConsumedOk(k: Knowledge, n: nat)
    requires KnowledgeOk(k)
    ensures KnowledgeOk(Consumed(k, n))
  {
    hide WellFormed, Chronological, ContentBelow;
  }

  /** The arguments of an item are the known classes at the top of the stack. */
  ghost predicate ArgumentsKnown(k: Knowledge, args: seq<Id>) {
    forall i | 0 <= i < |args| :: HoldsAt(k.stack, k.height - i, args[i])
  }

  predicate HoldsAt(elements: map<int, Id>, h: int, id: Id) {
    h in elements && elements[h] == id
  }

  lemma ArgumentValues(init: Init, k: Knowledge, args: seq<Id>, stack: seq<Word>, w: World)
    requires KnowledgeOk(k) && Agrees(init, k, stack, w) && ArgumentsKnown(k, args)
    ensures |args| <= |stack|
    ensures forall i | 0 <= i < |args| :: args[i] < |k.reps| && stack[|stack| - 1 - i] == Nu(init, k.reps)[args[i]]
    ensures Args(stack, |args|) == ArgValues(Nu(init, k.reps), args)
  {
    hide Interp, Nu, WorldOf, Chronological, Load, ContentAgrees, ContentBelow;
    forall i | 0 <= i < |args|
      ensures args[i] < |k.reps| && i < |stack| && stack[|stack| - 1 - i] == Nu(init, k.reps)[args[i]]
    {
      var h := k.height - i;
      assert HoldsAt(k.stack, h, args[i]);
      assert ElementAgrees(Nu(init, k.reps), init.stack, stack, h, args[i]);
      assert |init.stack| - 1 + h == |stack| - 1 - i;
    }
    if |args| > 0 {
      var last := args[|args| - 1];
      assert |args| - 1 < |stack|;
    }
  }

  // ----- one lemma per kind of item -----

  lemma TagStep(k: Knowledge, item: Item)
    requires KnowledgeOk(k) && item.Tag?
    ensures Steps(k, k, item)
  {
    hide KnowledgeOk, Agrees, ValidInit, ExecItem;
    forall init, stack, w | ValidInit(init) && Agrees(init, k, stack, w)
      ensures StepsAt(init, k, item, stack, w)
    {
      ExecTag(init.env, item, stack, w);
    }
  }

  lemma PushStep(k: Knowledge, item: Item, id: Id)
    requires KnowledgeOk(k) && IsPushItem(item) && Means(k.reps, item, [], id)
    ensures Steps(k, Pushed(k, id), item)
  {
    hide KnowledgeOk, Agrees, ValidInit, ExecItem, Means, Pushed;
    OkWellFormed(k);
    MeansShape(k.reps, item, [], id);
    PushedOk(k, id);
    forall init, stack, w | ValidInit(init) && Agrees(init, k, stack, w)
      ensures StepsAt(init, Pushed(k, id), item, stack, w)
    {
      ExecPush(init.env, item, stack, w);
      PushedAgrees(init, k, id, stack, w);
      PushMeaning(init, k.reps, item, id);
    }
  }

  lemma OkWellFormed(k: Knowledge)
    requires KnowledgeOk(k)
    ensures WellFormed(k.reps)
  {
  }

  lemma PushMeaning(init: Init, reps: seq<Expr>, item: Item, id: Id)
    requires WellFormed(reps) && ValidInit(init) && IsPushItem(item) && Means(reps, item, [], id)
    ensures id < |reps| && Nu(init, reps)[id] == PushedValue(init.env, item)
  {
    hide Interp, Nu, ValidInit, PushedValue;
    assert MeansAt(init, reps, item, [], id);
  }

  lemma DupStep(k: Knowledge, op: Opcode)
    requires KnowledgeOk(k) && IsDup(op) && k.height - (op - DUP1) in k.stack
    ensures Steps(k, Pushed(k, k.stack[k.height - (op - DUP1)]), Operation(op))
  {
    hide Agrees, ValidInit, ExecItem, WellFormed, Chronological, ContentBelow, Pushed;
    var h := k.height - (op - DUP1);
    var id := k.stack[h];
    PushedOk(k, id);
    forall init, stack, w | ValidInit(init) && Agrees(init, k, stack, w)
      ensures StepsAt(init, Pushed(k, id), Operation(op), stack, w)
    {
      ExecDup(init.env, op, stack, w);
      PushedAgrees(init, k, id, stack, w);
      ElementValue(init, k, h, stack, w);
    }
  }

  lemma ElementValue(init: Init, k: Knowledge, h: int, stack: seq<Word>, w: World)
    requires KnowledgeOk(k) && Agrees(init, k, stack, w) && h in k.stack
    ensures 0 <= |stack| - 1 - (k.height - h) < |stack|
    ensures stack[|stack| - 1 - (k.height - h)] == Nu(init, k.reps)[k.stack[h]]
  {
    hide Interp, Nu, WorldOf, Chronological, Load, ContentAgrees, ContentBelow;
    assert ElementAgrees(Nu(init, k.reps), init.stack, stack, h, k.stack[h]);
  }

  function Swapped(k: Knowledge, n: nat): Knowledge
    requires k.height in k.stack && k.height - n in k.stack
  {
    k.(stack := Exchanged(k.stack, k.height, k.height - n))
  }

  lemma SwapStep(k: Knowledge, op: Opcode)
    requires KnowledgeOk(k) && IsSwap(op) && k.height in k.stack && k.height - (op - SWAP1 + 1) in k.stack
    ensures Steps(k, Swapped(k, op - SWAP1 + 1), Operation(op))
  {
    hide Agrees, ValidInit, ExecItem, WellFormed, Chronological, ContentBelow;
    var n := op - SWAP1 + 1;
    forall init, stack, w | ValidInit(init) && Agrees(init, k, stack, w)
      ensures StepsAt(init, Swapped(k, n), Operation(op), stack, w)
    {
      ExecSwap(init.env, op, stack, w);
      if n < |stack| {
        SwappedAgrees(init, k, n, stack, w);
      }
    }
  }

  lemma SwappedAgrees(init: Init, k: Knowledge, n: nat, stack: seq<Word>, w: World)
    requires KnowledgeOk(k) && Agrees(init, k, stack, w) && 0 < n < |stack|
    requires k.height in k.stack && k.height - n in k.stack
    ensures KnowledgeOk(Swapped(k, n)) && Agrees(init, Swapped(k, n), SwapTop(stack, n), w)
  {
    hide Interp, Nu, WorldOf, Chronological, Load, ContentAgrees, ContentBelow, StackAgrees;
    SwapElements(Nu(init, k.reps), init.stack, k.height, k.stack, stack, n);
  }

  lemma PopStep(k: Knowledge)
    requires KnowledgeOk(k)
    ensures Steps(k, Consumed(k, 1), Operation(POP))
  {
    hide KnowledgeOk, Agrees, ValidInit, ExecItem, Consumed;
    ConsumedOk(k, 1);
    forall init, stack, w | ValidInit(init) && Agrees(init, k, stack, w)
      ensures StepsAt(init, Consumed(k, 1), Operation(POP), stack, w)
    {
      ExecPop(init.env, stack, w);
      if |stack| > 0 {
        ConsumedAgrees(init, k, 1, stack, w);
      }
    }
  }

  lemma PureStep(k: Knowledge, op: Opcode, args: seq<Id>, id: Id)
    requires KnowledgeOk(k) && IsPure(op) && |args| == ArgCount(op)
    requires ArgumentsKnown(k, args) && Means(k.reps, Operation(op), args, id)
    ensures Steps(k, Pushed(Consumed(k, |args|), id), Operation(op))
  {
    hide KnowledgeOk, Agrees, ValidInit, ExecItem, Means, Pushed, ArgumentsKnown, IsPure, ArgCount;
    OkWellFormed(k);
    MeansShape(k.reps, Operation(op), args, id);
    ConsumedOk(k, |args|);
    PushedOk(Consumed(k, |args|), id);
    forall init, stack, w | ValidInit(init) && Agrees(init, k, stack, w)
      ensures StepsAt(init, Pushed(Consumed(k, |args|), id), Operation(op), stack, w)
    {
      ExecPure(init.env, op, stack, w);
      ArgumentValues(init, k, args, stack, w);
      ConsumedAgrees(init, k, |args|, stack, w);
      PushedAgrees(init, Consumed(k, |args|), id, Drop(stack, |args|), w);
      PureMeaningIs(init, k, op, args, id, stack, w);
    }
  }

  lemma PureMeaningIs(init: Init, k: Knowledge, op: Opcode, args: seq<Id>, id: Id, stack: seq<Word>, w: World)
    requires KnowledgeOk(k) && Agrees(init, k, stack, w) && ValidInit(init)
    requires Means(k.reps, Operation(op), args, id)
    ensures Nu(init, k.reps)[id] == PureValue(init.env, w.outside, op, ArgValues(Nu(init, k.reps), args))
  {
    hide Interp, Nu, WorldOf, Chronological, ContentAgrees, ContentBelow, StackAgrees, ValidInit, PureValue;
    OutsideConstant(init, k.reps);
    assert MeansAt(init, k.reps, Operation(op), args, id);
  }

  /** Instructions without side effects and without a result, apart from FREEGAS. */
  lemma SilentStep(k: Knowledge, op: Opcode)
    requires KnowledgeOk(k) && !HasSideEffects(op) && RetCount(op) == 0 && op != POP && op != FREEGAS
    ensures Steps(k, Consumed(k, ArgCount(op)), Operation(op))
  {
    hide KnowledgeOk, Agrees, ValidInit, ExecItem, Consumed, ArgCount;
    ConsumedOk(k, ArgCount(op));
    forall init, stack, w | ValidInit(init) && Agrees(init, k, stack, w)
      ensures StepsAt(init, Consumed(k, ArgCount(op)), Operation(op), stack, w)
    {
      ExecSilent(init.env, op, stack, w);
      if |stack| >= ArgCount(op) {
        ConsumedAgrees(init, k, ArgCount(op), stack, w);
      }
    }
  }

  lemma ExecSilent(env: Env, op: Opcode, stack: seq<Word>, w: World)
    requires !HasSideEffects(op) && RetCount(op) == 0 && op != POP && op != FREEGAS
    ensures var r := ExecItem(env, Operation(op), stack, w);
            r == if !IsValidInstruction(op) || |stack| < ArgCount(op) then Fail else Next(Drop(stack, ArgCount(op)), w)
  {
    hide ArgCount, Args, Drop;
  }

  // ----- loads -----

  /** A load belongs to the world that the stores before the current sequence number have left. */
  lemma NewLoad(k: Knowledge, load: Opcode, slot: Id, reps: seq<Expr>, id: Id)
    requires KnowledgeOk(k) && IsLoad(load) && slot < |k.reps|
    requires Grown(k.reps, reps, Expr(Operation(load), [slot], k.seqNr))
    requires id < |reps| && reps[id] == Expr(Operation(load), [slot], k.seqNr)
    ensures k.reps <= reps && Chronological(reps, k.seqNr) && NoStores(reps[|k.reps|..]) && NoStores(reps[id..])
  {
    var e := Expr(Operation(load), [slot], k.seqNr);
    hide ArgsBelow;
    if NoMemory(reps[|k.reps|..]) {
      ChronologicalGrows(k.reps, reps, k.seqNr);
      UnsequencedNoStores(reps[|k.reps|..]);
    } else {
      assert reps == k.reps + [e];
      ChronologicalNext(k.reps, e, k.seqNr, k.seqNr);
      assert reps[|k.reps|..] == [e];
    }
    forall i | 0 <= i < |reps[id..]|
      ensures !IsStoreItem(reps[id..][i].item)
    {
      assert reps[id..][i] == reps[id + i];
      assert Sequenced(reps[id + i], k.seqNr);
      if i > 0 {
        assert InOrder(reps[id], reps[id + i]);
      }
    }
  }

  lemma ChronologicalNext(reps: seq<Expr>, e: Expr, seqNr: nat, next: nat)
    requires Chronological(reps, seqNr) && seqNr % 2 == 1 && seqNr <= next
    requires e.seqNr == next && IsMemoryItem(e.item) && (IsStoreItem(e.item) <==> next % 2 == 0)
    ensures Chronological(reps + [e], next)
  {
    hide IsMemoryItem, IsStoreItem;
    var bigger := reps + [e];
    forall i | 0 <= i < |bigger|
      ensures Sequenced(bigger[i], next)
    {
      if i < |reps| {
        assert Sequenced(reps[i], seqNr);
      }
    }
    forall i, j | 0 <= i < j < |bigger|
      ensures InOrder(bigger[i], bigger[j])
    {
      assert Sequenced(reps[i], seqNr);
      if j < |reps| {
        assert InOrder(reps[i], reps[j]);
      }
    }
  }

  lemma LoadValue(init: Init, reps: seq<Expr>, load: Opcode, slot: Id, seqNr: nat, id: Id)
    requires WellFormed(reps) && IsLoad(load) && id < |reps| && reps[id] == Expr(Operation(load), [slot], seqNr)
    requires NoStores(reps[id..])
    ensures slot < |reps| && Nu(init, reps)[id] == Load(load, Nu(init, reps)[slot], WorldOf(init, reps))
  {
    hide Interp, Nu, WorldOf, Load;
    NuAt(init, reps, id);
    InterpPrefix(init, reps, id);
    assert reps[id].args[0] == slot;
    assert ArgValues(Nu(init, reps), [slot]) == [Nu(init, reps)[slot]];
  }

  function WithContent(k: Knowledge, load: Opcode, content: map<Id, Id>): Knowledge {
    if load == SLOAD then k.(storage := content) else k.(memory := content)
  }

  function ContentOf(k: Knowledge, load: Opcode): map<Id, Id> {
    if load == SLOAD then k.storage else k.memory
  }

  lemma LoadRefines(k: Knowledge, load: Opcode, slot: Id, reps: seq<Expr>, id: Id)
    requires KnowledgeOk(k) && IsLoad(load) && slot < |k.reps|
    requires Grown(k.reps, reps, Expr(Operation(load), [slot], k.seqNr))
    requires id < |reps| && reps[id] == Expr(Operation(load), [slot], k.seqNr)
    ensures Refines(k, WithContent(k.(reps := reps), load, ContentOf(k, load)[slot := id]), 0)
  {
    hide Agrees, ValidInit, Chronological, NoStores;
    var k' := WithContent(k.(reps := reps), load, ContentOf(k, load)[slot := id]);
    NewLoad(k, load, slot, reps, id);
    forall init, stack, w | ValidInit(init) && Agrees(init, k, stack, w)
      ensures Agrees(init, k', stack, w)
    {
      LoadAgrees(init, k, load, slot, reps, id, stack, w);
    }
  }

  lemma LoadAgrees(init: Init, k: Knowledge, load: Opcode, slot: Id, reps: seq<Expr>, id: Id, stack: seq<Word>, w: World)
    requires KnowledgeOk(k) && IsLoad(load) && slot < |k.reps| && WellFormed(reps) && Agrees(init, k, stack, w)
    requires id < |reps| && reps[id] == Expr(Operation(load), [slot], k.seqNr)
    requires k.reps <= reps && Chronological(reps, k.seqNr) && NoStores(reps[|k.reps|..]) && NoStores(reps[id..])
    ensures var k' := WithContent(k.(reps := reps), load, ContentOf(k, load)[slot := id]);
            KnowledgeOk(k') && Agrees(init, k', stack, w)
  {
    hide Interp, Nu, WorldOf, Chronological, Load, NoStores, StackAgrees, ContentAgrees, WellFormed;
    LoadValue(init, reps, load, slot, k.seqNr, id);
    InterpPrefix(init, reps, |k.reps|);
    assert reps[..|k.reps|] == k.reps;
    var nu, nu' := Nu(init, k.reps), Nu(init, reps);
    StackExtends(nu, nu', init.stack, k.height, k.stack, stack);
    ContentExtends(nu, nu', SLOAD, k.storage, w);
    ContentExtends(nu, nu', MLOAD, k.memory, w);
    LearnContent(nu', load, ContentOf(k, load), slot, id, w);
  }

  lemma StackExtends(nu: seq<Word>, nu': seq<Word>, base: seq<Word>, height: int, elements: map<int, Id>, stack: seq<Word>)
    requires |nu| <= |nu'| && nu == nu'[..|nu|]
    requires IdsBelow(elements, |nu|) && StackAgrees(nu, base, height, elements, stack)
    ensures StackAgrees(nu', base, height, elements, stack)
  {
    forall h | h in elements
      ensures ElementAgrees(nu', base, stack, h, elements[h])
    {
      assert ElementAgrees(nu, base, stack, h, elements[h]);
      assert nu'[..|nu|][elements[h]] == nu'[elements[h]];
    }
  }

  lemma ContentExtends(nu: seq<Word>, nu': seq<Word>, load: Opcode, content: map<Id, Id>, w: World)
    requires |nu| <= |nu'| && nu == nu'[..|nu|]
    requires ContentBelow(content, |nu|) && ContentAgrees(nu, load, content, w)
    ensures ContentAgrees(nu', load, content, w)
  {
    hide Load;
    assert forall i | 0 <= i < |nu| :: nu'[i] == nu[i];
  }

  lemma LearnContent(nu: seq<Word>, load: Opcode, content: map<Id, Id>, slot: Id, id: Id, w: World)
    requires ContentBelow(content, |nu|) && ContentAgrees(nu, load, content, w) && slot < |nu| && id < |nu|
    requires nu[id] == Load(load, nu[slot], w)
    ensures ContentAgrees(nu, load, content[slot := id], w)
  {
    hide Load;
  }

  lemma LoadStep(k: Knowledge, load: Opcode, slot: Id, id: Id)
    requires KnowledgeOk(k) && IsLoad(load) && ArgumentsKnown(k, [slot])
    requires slot in ContentOf(k, load) && ContentOf(k, load)[slot] == id
    ensures Steps(k, Pushed(Consumed(k, 1), id), Operation(load))
  {
    hide Agrees, ValidInit, ExecItem, Pushed, ArgumentsKnown, WellFormed, Chronological;
    ConsumedOk(k, 1);
    PushedOk(Consumed(k, 1), id);
    forall init, stack, w | ValidInit(init) && Agrees(init, k, stack, w)
      ensures StepsAt(init, Pushed(Consumed(k, 1), id), Operation(load), stack, w)
    {
      ExecLoad(init.env, load, stack, w);
      ArgumentValues(init, k, [slot], stack, w);
      assert stack[|stack| - 1] == Nu(init, k.reps)[[slot][0]];
      ConsumedAgrees(init, k, 1, stack, w);
      PushedAgrees(init, Consumed(k, 1), id, Drop(stack, 1), w);
      KnownContent(init, k, load, slot, stack, w);
    }
  }

  lemma KnownContent(init: Init, k: Knowledge, load: Opcode, slot: Id, stack: seq<Word>, w: World)
    requires KnowledgeOk(k) && Agrees(init, k, stack, w) && IsLoad(load) && slot in ContentOf(k, load)
    ensures Load(load, Nu(init, k.reps)[slot], w) == Nu(init, k.reps)[ContentOf(k, load)[slot]]
  {
    hide Interp, Nu, WorldOf, Chronological, Load, StackAgrees, WellFormed;
  }

  // ----- stores -----

  /** From states that agree with k, storing the value leads to states that agree with k'. */
  ghost predicate StoresTo(k: Knowledge, k': Knowledge, store: Opcode, slot: Id, value: Id) {
    && KnowledgeOk(k) && KnowledgeOk(k') && slot < |k.reps| && value < |k.reps|
    && forall init, stack, w | ValidInit(init) && Agrees(init, k, stack, w) ::
         StoredAt(init, k, k', store, slot, value, stack, w)
  }

  ghost predicate StoredAt(init: Init, k: Knowledge, k': Knowledge, store: Opcode, slot: Id, value: Id, stack: seq<Word>, w: World)
    requires KnowledgeOk(k) && KnowledgeOk(k') && slot < |k.reps| && value < |k.reps|
  {
    Agrees(init, k', stack, Store(store, Nu(init, k.reps)[slot], Nu(init, k.reps)[value], w))
  }

  /** A store of what is known to be there already may be left out. */
  lemma RedundantStore(k: Knowledge, store: Opcode, slot: Id, value: Id)
    requires KnowledgeOk(k) && IsStore(store)
    requires slot in ContentOf(k, LoadOf(store)) && ContentOf(k, LoadOf(store))[slot] == value
    ensures StoresTo(k, k, store, slot, value)
  {
    hide Agrees, ValidInit, WellFormed, Chronological;
    forall init, stack, w | ValidInit(init) && Agrees(init, k, stack, w)
      ensures StoredAt(init, k, k, store, slot, value, stack, w)
    {
      KnownContent(init, k, LoadOf(store), slot, stack, w);
      StoreSame(store, Nu(init, k.reps)[slot], w);
    }
  }

  function Stored(k: Knowledge, store: Opcode, kept: map<Id, Id>, slot: Id, value: Id): Knowledge {
    WithContent(k.(reps := k.reps + [Expr(Operation(store), [slot, value], k.seqNr + 1)], seqNr := k.seqNr + 2),
                LoadOf(store), kept[slot := value])
  }

  lemma NewStore(k: Knowledge, store: Opcode, kept: map<Id, Id>, slot: Id, value: Id)
    requires KnowledgeOk(k) && IsStore(store) && slot < |k.reps| && value < |k.reps|
    requires Surviving(k.reps, store, ContentOf(k, LoadOf(store)), kept, slot, value)
    ensures StoresTo(k, Stored(k, store, kept, slot, value), store, slot, value)
  {
    hide Agrees, ValidInit, Stored, Surviving, KnowledgeOk;
    StoredOk(k, store, kept, slot, value);
    forall init, stack, w | ValidInit(init) && Agrees(init, k, stack, w)
      ensures StoredAt(init, k, Stored(k, store, kept, slot, value), store, slot, value, stack, w)
    {
      StoredAgrees(init, k, store, kept, slot, value, stack, w);
    }
  }

  lemma StoredOk(k: Knowledge, store: Opcode, kept: map<Id, Id>, slot: Id, value: Id)
    requires KnowledgeOk(k) && IsStore(store) && slot < |k.reps| && value < |k.reps|
    requires Surviving(k.reps, store, ContentOf(k, LoadOf(store)), kept, slot, value)
    ensures KnowledgeOk(Stored(k, store, kept, slot, value))
  {
    hide Survives, Chronological;
    var e := Expr(Operation(store), [slot, value], k.seqNr + 1);
    ChronologicalNext(k.reps, e, k.seqNr, k.seqNr + 1);
    ChronologicalLater(k.reps + [e], k.seqNr + 1, k.seqNr + 2);
  }

  lemma ChronologicalLater(reps: seq<Expr>, seqNr: nat, later: nat)
    requires Chronological(reps, seqNr) && seqNr <= later
    ensures Chronological(reps, later)
  {
    hide IsMemoryItem, IsStoreItem, InOrder;
    forall i | 0 <= i < |reps|
      ensures Sequenced(reps[i], later)
    {
      assert Sequenced(reps[i], seqNr);
    }
  }

  lemma StoredAgrees(init: Init, k: Knowledge, store: Opcode, kept: map<Id, Id>, slot: Id, value: Id, stack: seq<Word>, w: World)
    requires KnowledgeOk(k) && IsStore(store) && slot < |k.reps| && value < |k.reps| && ValidInit(init)
    requires Surviving(k.reps, store, ContentOf(k, LoadOf(store)), kept, slot, value) && Agrees(init, k, stack, w)
    requires KnowledgeOk(Stored(k, store, kept, slot, value))
    ensures Agrees(init, Stored(k, store, kept, slot, value), stack,
                   Store(store, Nu(init, k.reps)[slot], Nu(init, k.reps)[value], w))
  {
    hide Interp, Nu, WorldOf, Chronological, Load, Store, ValidInit, Surviving, WellFormed, StackAgrees, ContentAgrees;
    var k' := Stored(k, store, kept, slot, value);
    var nu, nu' := Nu(init, k.reps), Nu(init, k'.reps);
    var w' := Store(store, nu[slot], nu[value], w);
    StoreContent(init, k.reps, store, ContentOf(k, LoadOf(store)), kept, slot, value, w);
    OtherContent(nu, store, if store == SSTORE then MLOAD else SLOAD, if store == SSTORE then k.memory else k.storage,
                 nu[slot], nu[value], w);
    AppendStore(init, k.reps, store, slot, value, k.seqNr + 1);
    StackExtends(nu, nu', init.stack, k.height, k.stack, stack);
    ContentExtends(nu, nu', LoadOf(store), kept[slot := value], w');
    if store == SSTORE {
      ContentExtends(nu, nu', MLOAD, k.memory, w');
    } else {
      ContentExtends(nu, nu', SLOAD, k.storage, w');
    }
  }

  lemma AppendStore(init: Init, reps: seq<Expr>, store: Opcode, slot: Id, value: Id, seqNr: nat)
    requires WellFormed(reps) && IsStore(store) && slot < |reps| && value < |reps|
    ensures var bigger := reps + [Expr(Operation(store), [slot, value], seqNr)];
            && WellFormed(bigger)
            && Nu(init, bigger)[..|reps|] == Nu(init, reps)
            && WorldOf(init, bigger) == Store(store, Nu(init, reps)[slot], Nu(init, reps)[value], WorldOf(init, reps))
  {
    hide Load, Store, PureMeaning;
    var e := Expr(Operation(store), [slot, value], seqNr);
    var bigger := reps + [e];
    assert bigger[..|bigger| - 1] == reps;
    assert bigger[|reps|] == e;
    assert e.args[0] == slot && e.args[1] == value;
  }

  lemma StoreStep(k: Knowledge, k': Knowledge, store: Opcode, slot: Id, value: Id)
    requires IsStore(store) && StoresTo(k, k', store, slot, value) && ArgumentsKnown(k, [slot, value])
    requires k'.height == k.height && k'.stack == k.stack
    ensures Steps(k, Consumed(k', 2), Operation(store))
  {
    hide Agrees, ValidInit, ExecItem, Consumed, ArgumentsKnown, KnowledgeOk, Store;
    OkWellFormed(k);
    ConsumedOk(k', 2);
    forall init, stack, w | ValidInit(init) && Agrees(init, k, stack, w)
      ensures StepsAt(init, Consumed(k', 2), Operation(store), stack, w)
    {
      ExecStore(init.env, store, stack, w);
      ArgumentValues(init, k, [slot, value], stack, w);
      assert stack[|stack| - 1] == Nu(init, k.reps)[[slot, value][0]];
      assert stack[|stack| - 1 - 1] == Nu(init, k.reps)[[slot, value][1]];
      assert StoredAt(init, k, k', store, slot, value, stack, w);
      ConsumedAgrees(init, k', 2, stack, Store(store, Nu(init, k.reps)[slot], Nu(init, k.reps)[value], w));
    }
  }
}
