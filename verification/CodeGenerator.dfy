/** Generates code from the current stack layout, the target stack layout and the equivalence
    classes (libevmasm/CommonSubexpressionEliminator.cpp:122-509). */
module CodeGenerators {
  import opened Wrappers
  import opened Instructions
  import opened Items
  import opened Machine
  import opened Rules
  import opened Semantics
  import opened Classes
  import opened Knowing
  import opened KnownStates
  import opened Replaying
  import opened Generating
  import opened FreeGas
  import opened Availability
  import opened ComputingOnce
  import Rewriting

  // ----- least and greatest elements -----

  lemma NonEmpty(s: set<int>)
    ensures s == {} || exists x :: x in s
  {
    if forall x :: x !in s {
      assert s == {};
    }
  }

  method MaxOf(s: set<int>) returns (m: int)
    requires |s| > 0
    ensures m in s && forall x | x in s :: x <= m
  {
    NonEmpty(s);
    m :| m in s;
    var rest := s;
    while |rest| > 0
      invariant m in s && rest <= s && forall x | x in s && x !in rest :: x <= m
      decreases |rest|
    {
      NonEmpty(rest);
      var x :| x in rest;
      m := if m < x then x else m;
      rest := rest - {x};
    }
  }

  method MinOf(s: set<int>) returns (m: int)
    requires |s| > 0
    ensures m in s && forall x | x in s :: m <= x
  {
    NonEmpty(s);
    m :| m in s;
    var rest := s;
    while |rest| > 0
      invariant m in s && rest <= s && forall x | x in s && x !in rest :: m <= x
      decreases |rest|
    {
      NonEmpty(rest);
      var x :| x in rest;
      m := if x < m then x else m;
      rest := rest - {x};
    }
  }

  // ----- stores grouped by slot -----

  predicate Ascending(ops: seq<StoreOperation>) {
    forall i, j | 0 <= i < j < |ops| :: ops[i].seqNr < ops[j].seqNr
  }

  predicate AllDescribed(reps: seq<Expr>, ops: seq<StoreOperation>) {
    forall i | 0 <= i < |ops| :: Describes(reps, ops[i])
  }

  /** The stores to one slot, in their order. */
  predicate GroupOk(key: (Target, Id), group: seq<StoreOperation>, ops: seq<StoreOperation>) {
    && group != [] && Ascending(group)
    && forall i | 0 <= i < |group| :: group[i] in ops && (group[i].target, group[i].slot) == key
  }

  predicate InGroup(groups: map<(Target, Id), seq<StoreOperation>>, o: StoreOperation) {
    (o.target, o.slot) in groups && o in groups[(o.target, o.slot)]
  }

  /** The groups hold exactly the given stores. */
  predicate Grouped(groups: map<(Target, Id), seq<StoreOperation>>, ops: seq<StoreOperation>) {
    && (forall key | key in groups :: GroupOk(key, groups[key], ops))
    && (forall o | o in ops :: InGroup(groups, o))
  }

  function AddToGroup(groups: map<(Target, Id), seq<StoreOperation>>, o: StoreOperation): map<(Target, Id), seq<StoreOperation>> {
    var key := (o.target, o.slot);
    groups[key := (if key in groups then groups[key] else []) + [o]]
  }

  lemma GroupedAppend(groups: map<(Target, Id), seq<StoreOperation>>, ops: seq<StoreOperation>, o: StoreOperation)
    requires Grouped(groups, ops) && Ascending(ops + [o])
    ensures Grouped(AddToGroup(groups, o), ops + [o])
  {
    var groups', ops' := AddToGroup(groups, o), ops + [o];
    forall x | x in ops
      ensures x.seqNr < o.seqNr
    {
      var i :| 0 <= i < |ops| && ops[i] == x;
      assert ops'[i] == x && ops'[|ops|] == o;
    }
    forall key | key in groups'
      ensures GroupOk(key, groups'[key], ops')
    {
      if key in groups {
        assert GroupOk(key, groups[key], ops);
      }
    }
    forall x | x in ops'
      ensures InGroup(groups', x)
    {
      if x in ops {
        assert InGroup(groups, x);
      }
    }
  }

  // ----- dependencies -----

  /** A store to the same slot, not earlier than s and before the load c, is recorded as needed by c. */
  ghost predicate RecordedLater(reps: seq<Expr>, needed: set<(Id, Id)>, s: Id, c: Id)
    requires s < c < |reps|
  {
    exists t | s <= t < c :: (t, c) in needed && SameSlot(reps[s], reps[t])
  }

  predicate Touches(store: Expr, load: Expr) {
    IsStoreItem(store.item) && |store.args| == 2 && IsLoadItem(load.item) && |load.args| == 1
    && LoadOf(store.item.instr) == load.item.instr
  }

  /** Every store a load may see is recorded, in its last form before the load. */
  ghost predicate LoadDependencies(reps: seq<Expr>, needed: set<(Id, Id)>, c: Id)
    requires WellFormed(reps) && c < |reps|
  {
    forall s | 0 <= s < c && Touches(reps[s], reps[c]) ::
      Independent(reps, reps[s].item.instr, reps[s].args[0], reps[c].args[0]) || RecordedLater(reps, needed, s, c)
  }

  /** The class is on the stack from the start, or everything it needs is recorded. */
  ghost predicate Complete(reps: seq<Expr>, needed: set<(Id, Id)>, present: set<Id>, c: Id)
    requires WellFormed(reps)
  {
    && c < |reps|
    && (c in present || (
          && !reps[c].item.UndefinedItem?
          && (forall i | 0 <= i < |reps[c].args| :: (reps[c].args[i], c) in needed)
          && (IsLoadItem(reps[c].item) ==> LoadDependencies(reps, needed, c))))
  }

  ghost predicate NeededOk(reps: seq<Expr>, needed: set<(Id, Id)>, present: set<Id>)
    requires WellFormed(reps)
  {
    forall p | p in needed :: Complete(reps, needed, present, p.0) && p.1 < |reps|
  }

  /** The pairs added since `before` lead to complete classes, or to the one under construction. */
  ghost predicate NewComplete(reps: seq<Expr>, before: set<(Id, Id)>, needed: set<(Id, Id)>, present: set<Id>, pending: Option<Id>)
    requires WellFormed(reps)
  {
    before <= needed && forall p | p in needed && p !in before :: Complete(reps, needed, present, p.1) || Some(p.1) == pending
  }

  lemma CompleteGrows(reps: seq<Expr>, bigger: seq<Expr>, needed: set<(Id, Id)>, more: set<(Id, Id)>, present: set<Id>, c: Id)
    requires WellFormed(reps) && WellFormed(bigger) && reps <= bigger && needed <= more && Complete(reps, needed, present, c)
    ensures Complete(bigger, more, present, c)
  {
    hide AlwaysDifferent, AlwaysApart, WellFormed;
    if c !in present && IsLoadItem(reps[c].item) {
      forall s | 0 <= s < c && Touches(bigger[s], bigger[c])
        ensures Independent(bigger, bigger[s].item.instr, bigger[s].args[0], bigger[c].args[0]) || RecordedLater(bigger, more, s, c)
      {
        assert bigger[s] == reps[s] && bigger[c] == reps[c];
        if Independent(reps, reps[s].item.instr, reps[s].args[0], reps[c].args[0]) {
          DifferentGrows(reps, bigger, reps[s].args[0], reps[c].args[0]);
        } else {
          var t :| s <= t < c && (t, c) in needed && SameSlot(reps[s], reps[t]);
          assert bigger[t] == reps[t];
        }
      }
    }
  }

  lemma NeededGrows(reps: seq<Expr>, bigger: seq<Expr>, needed: set<(Id, Id)>, more: set<(Id, Id)>, present: set<Id>)
    requires WellFormed(reps) && WellFormed(bigger) && reps <= bigger && needed <= more && NeededOk(reps, needed, present)
    ensures forall p | p in needed :: Complete(bigger, more, present, p.0) && p.1 < |bigger|
  {
    hide Complete;
    forall p | p in needed
      ensures Complete(bigger, more, present, p.0)
    {
      CompleteGrows(reps, bigger, needed, more, present, p.0);
    }
  }

  lemma NewGrows(reps: seq<Expr>, bigger: seq<Expr>, before: set<(Id, Id)>, needed: set<(Id, Id)>, more: set<(Id, Id)>, present: set<Id>, pending: Option<Id>)
    requires WellFormed(reps) && WellFormed(bigger) && reps <= bigger && NewComplete(reps, before, needed, present, pending)
    requires NewComplete(bigger, needed, more, present, None) || NewComplete(bigger, needed, more, present, pending)
    ensures NewComplete(bigger, before, more, present, pending)
  {
    hide Complete;
    forall p | p in more && p !in before
      ensures Complete(bigger, more, present, p.1) || Some(p.1) == pending
    {
      if p in needed {
        if Complete(reps, needed, present, p.1) {
          CompleteGrows(reps, bigger, needed, more, present, p.1);
        }
      }
    }
  }

  lemma PresentComplete(reps: seq<Expr>, needed: set<(Id, Id)>, present: set<Id>, c: Id)
    requires WellFormed(reps) && c < |reps| && c in present
    ensures Complete(reps, needed, present, c)
  {
  }

  lemma NowComplete(reps: seq<Expr>, needed: set<(Id, Id)>, present: set<Id>, c: Id)
    requires WellFormed(reps) && c < |reps| && forall i | 0 <= i < |reps[c].args| :: (reps[c].args[i], c) in needed
    requires !reps[c].item.UndefinedItem?
    requires IsLoadItem(reps[c].item) ==> LoadDependencies(reps, needed, c)
    ensures Complete(reps, needed, present, c)
  {
  }

  lemma ValidTable(reps: seq<Expr>, expressions: map<Expr, Id>, c: Id)
    requires TableOk(reps, expressions) && c < |reps|
    ensures WellFormed(reps) && ArityOk(reps[c])
    ensures forall i | 0 <= i < |reps[c].args| :: reps[c].args[i] < c
  {
    hide OwnClasses, Recorded;
    assert ArgsBelow(reps[c], c);
  }

  /** One more pair for the class under construction. */
  lemma AddPair(reps: seq<Expr>, before: set<(Id, Id)>, needed: set<(Id, Id)>, present: set<Id>, a: Id, c: Id)
    requires WellFormed(reps) && c < |reps| && NeededOk(reps, needed, present) && Complete(reps, needed, present, a)
    requires NewComplete(reps, before, needed, present, Some(c))
    ensures NeededOk(reps, needed + {(a, c)}, present)
    ensures NewComplete(reps, before, needed + {(a, c)}, present, Some(c))
  {
    hide Complete;
    var more := needed + {(a, c)};
    NeededGrows(reps, reps, needed, more, present);
    CompleteGrows(reps, reps, needed, more, present, a);
    forall p | p in more && p !in before
      ensures Complete(reps, more, present, p.1) || Some(p.1) == Some(c)
    {
      if p in needed && Complete(reps, needed, present, p.1) {
        CompleteGrows(reps, reps, needed, more, present, p.1);
      }
    }
  }

  /** The class under construction is complete now. */
  lemma Finished(reps: seq<Expr>, before: set<(Id, Id)>, needed: set<(Id, Id)>, present: set<Id>, c: Id)
    requires WellFormed(reps) && NewComplete(reps, before, needed, present, Some(c)) && Complete(reps, needed, present, c)
    ensures NewComplete(reps, before, needed, present, None)
  {
    hide Complete;
  }

  predicate AllRecorded(reps: seq<Expr>, stores: seq<StoreOperation>) {
    forall s | 0 <= s < |reps| && IsStoreItem(reps[s].item) :: RecordOf(reps, s) in stores
  }

  /** The record that describes a store. */
  function RecordOf(reps: seq<Expr>, s: Id): StoreOperation
    requires s < |reps| && IsStoreItem(reps[s].item)
  {
    StoreOperation(TargetOf(reps[s].item.instr), if |reps[s].args| > 0 then reps[s].args[0] else 0, reps[s].seqNr, s)
  }

  predicate StoresOf(reps: seq<Expr>, stores: seq<StoreOperation>) {
    AllDescribed(reps, stores) && AllRecorded(reps, stores)
  }

  lemma StoresGrow(reps: seq<Expr>, bigger: seq<Expr>, stores: seq<StoreOperation>)
    requires StoresOf(reps, stores) && PureGrowth(reps, bigger)
    ensures StoresOf(bigger, stores)
  {
    forall i | 0 <= i < |stores|
      ensures Describes(bigger, stores[i])
    {
      assert Describes(reps, stores[i]);
    }
    forall s | |reps| <= s < |bigger|
      ensures IsUnsequenced(bigger[s])
    {
      assert bigger[s] == bigger[|reps|..][s - |reps|];
    }
    forall s | 0 <= s < |bigger| && IsStoreItem(bigger[s].item)
      ensures RecordOf(bigger, s) in stores
    {
      assert s < |reps|;
      assert RecordOf(reps, s) in stores;
    }
  }

  /** A store with a smaller sequence number than a load comes before it, and one with a greater or
      equal number than another store does not come before that. */
  lemma StoreBefore(reps: seq<Expr>, seqNr: nat, o: StoreOperation, c: Id)
    requires Chronological(reps, seqNr) && c < |reps| && Describes(reps, o) && IsMemoryItem(reps[c].item)
    ensures IsLoadItem(reps[c].item) && o.seqNr <= reps[c].seqNr ==> o.expression < c && o.seqNr < reps[c].seqNr
    ensures IsStoreItem(reps[c].item) && reps[c].seqNr <= o.seqNr ==> c <= o.expression
    ensures c > o.expression ==> o.seqNr < reps[c].seqNr
  {
    var t := o.expression;
    assert Sequenced(reps[t], seqNr) && Sequenced(reps[c], seqNr);
    if t < c {
      assert InOrder(reps[t], reps[c]);
    } else if c < t {
      assert InOrder(reps[c], reps[t]);
    }
  }

  function LoadTarget(load: Expr): Target {
    if load.item == Operation(SLOAD) then ToStorage else ToMemory
  }

  function StoreFor(load: Expr): Opcode {
    if load.item == Operation(SLOAD) then SSTORE else MSTORE
  }

  /** The last store of the group before the given sequence number. */
  ghost predicate IsLatest(group: seq<StoreOperation>, seqNr: nat, o: StoreOperation) {
    o in group && o.seqNr < seqNr && forall x | x in group && x.seqNr < seqNr :: x.seqNr <= o.seqNr
  }

  /** What is recorded for a load about the stores to one slot. */
  ghost predicate Handled(reps: seq<Expr>, needed: set<(Id, Id)>, c: Id, slot: Id, group: seq<StoreOperation>)
    requires WellFormed(reps) && c < |reps| && |reps[c].args| == 1
  {
    || (group != [] && group[0].seqNr > reps[c].seqNr)
    || Independent(reps, StoreFor(reps[c]), slot, reps[c].args[0])
    || exists o :: IsLatest(group, reps[c].seqNr, o) && (o.expression, c) in needed
  }

  lemma HandledGrows(reps: seq<Expr>, bigger: seq<Expr>, needed: set<(Id, Id)>, more: set<(Id, Id)>, c: Id, slot: Id, group: seq<StoreOperation>)
    requires WellFormed(reps) && WellFormed(bigger) && reps <= bigger && needed <= more && c < |reps| && |reps[c].args| == 1
    requires Handled(reps, needed, c, slot, group)
    ensures Handled(bigger, more, c, slot, group)
  {
    hide AlwaysDifferent, AlwaysApart, IsLatest, WellFormed;
    DifferentGrows(reps, bigger, slot, reps[c].args[0]);
  }

  lemma HandledAll(reps: seq<Expr>, seqNr: nat, groups: map<(Target, Id), seq<StoreOperation>>, stores: seq<StoreOperation>, needed: set<(Id, Id)>, c: Id)
    requires WellFormed(reps) && Chronological(reps, seqNr) && Grouped(groups, stores) && StoresOf(reps, stores)
    requires c < |reps| && IsLoadItem(reps[c].item) && |reps[c].args| == 1
    requires forall key | key in groups && key.0 == LoadTarget(reps[c]) :: Handled(reps, needed, c, key.1, groups[key])
    ensures LoadDependencies(reps, needed, c)
  {
    hide Independent, Chronological, WellFormed, Grouped, Handled;
    forall s | 0 <= s < c && Touches(reps[s], reps[c])
      ensures Independent(reps, reps[s].item.instr, reps[s].args[0], reps[c].args[0]) || RecordedLater(reps, needed, s, c)
    {
      var o := RecordOf(reps, s);
      assert o in stores;
      GroupedFacts(groups, stores, o);
      var key := (o.target, o.slot);
      assert Handled(reps, needed, c, key.1, groups[key]);
      HandledOne(reps, seqNr, groups[key], stores, needed, s, c);
    }
  }

  lemma GroupedFacts(groups: map<(Target, Id), seq<StoreOperation>>, stores: seq<StoreOperation>, o: StoreOperation)
    requires Grouped(groups, stores) && o in stores
    ensures var key := (o.target, o.slot);
            key in groups && o in groups[key] && GroupOk(key, groups[key], stores)
  {
    assert InGroup(groups, o);
  }

  lemma HandledOne(reps: seq<Expr>, seqNr: nat, group: seq<StoreOperation>, stores: seq<StoreOperation>, needed: set<(Id, Id)>, s: Id, c: Id)
    requires WellFormed(reps) && Chronological(reps, seqNr) && AllDescribed(reps, stores)
    requires s < c < |reps| && Touches(reps[s], reps[c])
    requires var o := RecordOf(reps, s); o in group && GroupOk((o.target, o.slot), group, stores)
    requires Handled(reps, needed, c, reps[s].args[0], group)
    ensures Independent(reps, reps[s].item.instr, reps[s].args[0], reps[c].args[0]) || RecordedLater(reps, needed, s, c)
  {
    hide Independent, Chronological, WellFormed;
    var o := RecordOf(reps, s);
    assert Describes(reps, o);
    StoreBefore(reps, seqNr, o, c);
    var i :| 0 <= i < |group| && group[i] == o;
    assert group[0].seqNr <= o.seqNr;
    if !Independent(reps, StoreFor(reps[c]), reps[s].args[0], reps[c].args[0]) {
      var x :| IsLatest(group, reps[c].seqNr, x) && (x.expression, c) in needed;
      assert x in stores;
      assert Describes(reps, x);
      StoreBefore(reps, seqNr, x, c);
      StoreBefore(reps, seqNr, x, s);
      assert SameSlot(reps[s], reps[x.expression]);
    }
  }

  method LatestStore(group: seq<StoreOperation>, seqNr: nat) returns (o: StoreOperation)
    requires group != [] && Ascending(group) && group[0].seqNr < seqNr
    ensures IsLatest(group, seqNr, o)
  {
    o := group[0];
    var i := 1;
    while i < |group|
      invariant 1 <= i <= |group| && o in group && o.seqNr < seqNr
      invariant forall j | 0 <= j < i :: group[j].seqNr < seqNr ==> group[j].seqNr <= o.seqNr
    {
      if group[i].seqNr < seqNr {
        forall j | 0 <= j < i
          ensures group[j].seqNr <= group[i].seqNr
        {
        }
        o := group[i];
      }
      i := i + 1;
    }
  }

  lemma GroupFacts(groups: map<(Target, Id), seq<StoreOperation>>, stores: seq<StoreOperation>, key: (Target, Id))
    requires Grouped(groups, stores) && key in groups
    ensures GroupOk(key, groups[key], stores) && groups[key] != [] && Ascending(groups[key])
  {
  }

  lemma NothingNew(reps: seq<Expr>, needed: set<(Id, Id)>, present: set<Id>, c: Id)
    requires WellFormed(reps)
    ensures NewComplete(reps, needed, needed, present, Some(c))
  {
    hide Complete;
  }

  lemma GroupSlot(reps: seq<Expr>, stores: seq<StoreOperation>, key: (Target, Id), group: seq<StoreOperation>)
    requires WellFormed(reps) && StoresOf(reps, stores) && GroupOk(key, group, stores)
    ensures key.1 < |reps|
  {
    assert Describes(reps, group[0]);
    assert ArgsBelow(reps[group[0].expression], |reps|);
  }

  /** Looking at the classes keeps what was recorded. */
  lemma KnownDependencies(reps: seq<Expr>, bigger: seq<Expr>, seqNr: nat, stores: seq<StoreOperation>, needed: set<(Id, Id)>, present: set<Id>)
    requires WellFormed(reps) && WellFormed(bigger) && PureGrowth(reps, bigger)
    requires Chronological(reps, seqNr) && StoresOf(reps, stores) && NeededOk(reps, needed, present)
    ensures Chronological(bigger, seqNr) && StoresOf(bigger, stores) && NeededOk(bigger, needed, present)
  {
    hide Complete, Chronological, StoresOf, NoMemory;
    ChronologicalGrows(reps, bigger, seqNr);
    StoresGrow(reps, bigger, stores);
    NeededGrows(reps, bigger, needed, needed, present);
  }

  lemma IndependentSlots(reps: seq<Expr>, e: Expr, slot: Id)
    requires WellFormed(reps) && IsLoadItem(e.item) && |e.args| == 1
    requires if e.item.instr == SLOAD then AlwaysDifferent(reps, slot, e.args[0]) else AlwaysApart(reps, slot, e.args[0])
    ensures Independent(reps, StoreFor(e), slot, e.args[0])
  {
    hide AlwaysDifferent, AlwaysApart;
  }

  lemma LoadIsMemory(e: Expr)
    requires IsLoadItem(e.item)
    ensures IsMemoryItem(e.item)
  {
  }

  /** The stores of a group that precede a load have smaller class numbers. */
  lemma GroupStores(reps: seq<Expr>, seqNr: nat, stores: seq<StoreOperation>, key: (Target, Id), group: seq<StoreOperation>, c: Id)
    requires Chronological(reps, seqNr) && StoresOf(reps, stores) && GroupOk(key, group, stores)
    requires c < |reps| && IsLoadItem(reps[c].item)
    ensures forall o | o in group && o.seqNr <= reps[c].seqNr :: o.expression < c && o.seqNr < reps[c].seqNr
  {
    hide Chronological, Describes;
    LoadIsMemory(reps[c]);
    forall o | o in group && o.seqNr <= reps[c].seqNr
      ensures o.expression < c && o.seqNr < reps[c].seqNr
    {
      var i :| 0 <= i < |group| && group[i] == o;
      assert o in stores;
      assert Describes(reps, o);
      StoreBefore(reps, seqNr, o, c);
    }
  }

  lemma ArgumentPair(reps: seq<Expr>, needed: set<(Id, Id)>, present: set<Id>, i: nat, c: Id)
    requires WellFormed(reps) && PairsOk(reps, needed, present) && c < |reps| && i < |reps[c].args| && c !in present
    ensures PairsOk(reps, needed + {(reps[c].args[i], c)}, present)
  {
    hide PairsOk;
    assert ArgsBelow(reps[c], c);
    OneMorePair(reps, needed, present, reps[c].args[i], c);
  }

  lemma StorePair(reps: seq<Expr>, stores: seq<StoreOperation>, key: (Target, Id), group: seq<StoreOperation>, needed: set<(Id, Id)>, present: set<Id>, o: StoreOperation, c: Id)
    requires StoresOf(reps, stores) && GroupOk(key, group, stores) && o in group && PairsOk(reps, needed, present)
    requires o.expression < c < |reps| && c !in present && IsLoadItem(reps[c].item)
    ensures PairsOk(reps, needed + {(o.expression, c)}, present)
  {
    hide PairsOk;
    assert o in stores;
    assert Describes(reps, o);
    OneMorePair(reps, needed, present, o.expression, c);
  }

  /** The slots of a store and of a load are values. */
  lemma SlotValues(reps: seq<Expr>, expressions: map<Expr, Id>, stores: seq<StoreOperation>, key: (Target, Id), group: seq<StoreOperation>, c: Id)
    requires Tidy(reps, expressions) && StoresOf(reps, stores) && GroupOk(key, group, stores) && c < |reps| && |reps[c].args| == 1
    ensures IsValue(reps, key.1) && IsValue(reps, reps[c].args[0])
  {
    hide IsValue;
    assert group[0] in stores;
    assert Describes(reps, group[0]);
    assert Usable(reps, reps[group[0].expression].args) && Usable(reps, reps[c].args);
  }

  /** The last store of every listed group is complete. */
  ghost predicate LastComplete(reps: seq<Expr>, needed: set<(Id, Id)>, present: set<Id>, groups: map<(Target, Id), seq<StoreOperation>>, keys: set<(Target, Id)>)
    requires WellFormed(reps)
  {
    forall key | key in keys :: key in groups && groups[key] != [] && Complete(reps, needed, present, Last(groups[key]).expression)
  }

  function Last(group: seq<StoreOperation>): StoreOperation
    requires group != []
  {
    group[|group| - 1]
  }

  lemma LastGrowsAll(reps: seq<Expr>, bigger: seq<Expr>, needed: set<(Id, Id)>, more: set<(Id, Id)>, present: set<Id>, groups: map<(Target, Id), seq<StoreOperation>>, keys: set<(Target, Id)>)
    requires WellFormed(reps) && WellFormed(bigger) && reps <= bigger && needed <= more
    requires LastComplete(reps, needed, present, groups, keys)
    ensures LastComplete(bigger, more, present, groups, keys)
  {
    hide Complete;
    forall key | key in keys
      ensures Complete(bigger, more, present, Last(groups[key]).expression)
    {
      CompleteGrows(reps, bigger, needed, more, present, Last(groups[key]).expression);
    }
  }

  lemma LastGrows(reps: seq<Expr>, bigger: seq<Expr>, needed: set<(Id, Id)>, more: set<(Id, Id)>, present: set<Id>, groups: map<(Target, Id), seq<StoreOperation>>, keys: set<(Target, Id)>, key: (Target, Id))
    requires WellFormed(reps) && WellFormed(bigger) && reps <= bigger && needed <= more
    requires LastComplete(reps, needed, present, groups, keys)
    requires key in groups && groups[key] != [] && Complete(bigger, more, present, Last(groups[key]).expression)
    ensures LastComplete(bigger, more, present, groups, keys + {key})
  {
    hide Complete;
    LastGrowsAll(reps, bigger, needed, more, present, groups, keys);
  }

  lemma GroupSlots(reps: seq<Expr>, stores: seq<StoreOperation>, key: (Target, Id), group: seq<StoreOperation>)
    requires StoresOf(reps, stores) && GroupOk(key, group, stores)
    ensures forall i | 0 <= i < |group| :: group[i].expression < |reps|
  {
    forall i | 0 <= i < |group|
      ensures group[i].expression < |reps|
    {
      assert group[i] in stores;
      assert Describes(reps, group[i]);
    }
  }

  lemma NewSubset(reps: seq<Expr>, before: set<(Id, Id)>, needed: set<(Id, Id)>, present: set<Id>, pending: Option<Id>)
    requires WellFormed(reps) && NewComplete(reps, before, needed, present, pending)
    ensures before <= needed
  {
  }

  lemma NothingCollected(reps: seq<Expr>, present: set<Id>, groups: map<(Target, Id), seq<StoreOperation>>)
    requires WellFormed(reps)
    ensures NewComplete(reps, {}, {}, present, None) && LastComplete(reps, {}, present, groups, {})
  {
  }

  /** The last stores to the given slots. */
  function LastStores(groups: map<(Target, Id), seq<StoreOperation>>, keys: set<(Target, Id)>): set<Id> {
    set key | key in keys && key in groups && groups[key] != [] :: Last(groups[key]).expression
  }

  lemma NoLastStores(groups: map<(Target, Id), seq<StoreOperation>>)
    ensures LastStores(groups, {}) == {} && Grounded({}, {})
  {
  }

  lemma OneMoreStore(groups: map<(Target, Id), seq<StoreOperation>>, keys: set<(Target, Id)>, key: (Target, Id))
    requires key in groups && groups[key] != []
    ensures LastStores(groups, keys + {key}) == LastStores(groups, keys) + {Last(groups[key]).expression}
  {
  }

  ghost predicate AllComplete(reps: seq<Expr>, needed: set<(Id, Id)>, present: set<Id>, ids: set<Id>)
    requires WellFormed(reps)
  {
    forall c | c in ids :: Complete(reps, needed, present, c)
  }

  lemma NothingComplete(reps: seq<Expr>, needed: set<(Id, Id)>, present: set<Id>)
    requires WellFormed(reps)
    ensures AllComplete(reps, needed, present, {})
  {
  }

  lemma OneMoreComplete(reps: seq<Expr>, bigger: seq<Expr>, needed: set<(Id, Id)>, more: set<(Id, Id)>, present: set<Id>, ids: set<Id>, c: Id)
    requires WellFormed(reps) && WellFormed(bigger) && reps <= bigger && needed <= more
    requires AllComplete(reps, needed, present, ids) && Complete(bigger, more, present, c)
    ensures AllComplete(bigger, more, present, ids + {c})
  {
    hide Complete;
    forall x | x in ids
      ensures Complete(bigger, more, present, x)
    {
      CompleteGrows(reps, bigger, needed, more, present, x);
    }
  }

  ghost predicate OnlyTargets(target: map<int, Id>, final: set<Id>) {
    forall c | c in final :: exists h :: HoldsAt(target, h, c)
  }

  // ----- the order of loads and stores -----

  predicate Earlier(reps: seq<Expr>, computed: set<Id>, x: Id, c: nat) {
    x < c && x < |reps| && reps[x].seqNr != 0 ==> x in computed
  }

  /** All loads and stores below the given number that are needed have been computed. */
  predicate InTurn(reps: seq<Expr>, needed: set<(Id, Id)>, computed: set<Id>, c: nat) {
    forall p | p in needed :: Earlier(reps, computed, p.0, c) && Earlier(reps, computed, p.1, c)
  }

  predicate NewUpTo(before: set<Id>, after: set<Id>, c: Id) {
    before <= after && forall x | x in after && x !in before :: x <= c
  }

  lemma InTurnBefore(reps: seq<Expr>, needed: set<(Id, Id)>, computed: set<Id>, more: set<Id>, c: nat, d: nat)
    requires InTurn(reps, needed, computed, c) && d <= c && computed <= more
    ensures InTurn(reps, needed, more, d)
  {
    forall p | p in needed
      ensures Earlier(reps, more, p.0, d) && Earlier(reps, more, p.1, d)
    {
      assert Earlier(reps, computed, p.0, c) && Earlier(reps, computed, p.1, c);
    }
  }

  lemma NotPresent(reps: seq<Expr>, needed: set<(Id, Id)>, final: set<Id>, present: set<Id>, positions: map<Id, set<int>>, c: Id)
    requires WellFormed(reps) && LiveAt(reps, needed, final, present, positions) && c !in positions && Complete(reps, needed, present, c)
    ensures c !in present && !reps[c].item.UndefinedItem?
  {
    hide Available, Closed, LoadDependencies;
  }

  /** A value that is needed and has not been computed although all loads up to it have is no load. */
  lemma NotSequenced(reps: seq<Expr>, seqNr: nat, needed: set<(Id, Id)>, present: set<Id>, computed: set<Id>, c: Id)
    requires WellFormed(reps) && Chronological(reps, seqNr) && AllArityOk(reps)
    requires Complete(reps, needed, present, c) && c !in present && c !in computed && IsValue(reps, c)
    requires InTurn(reps, needed, computed, c + 1)
    ensures reps[c].seqNr == 0
  {
    hide LoadDependencies, InTurn, WellFormed;
    assert Sequenced(reps[c], seqNr);
    if reps[c].seqNr != 0 {
      MemoryIsLoadOrStore(reps[c]);
      assert ArityOk(reps[c]);
      LoadHasOne(reps[c]);
      var p := (reps[c].args[0], c);
      assert p in needed;
      InTurnOf(reps, needed, computed, c + 1, p);
    }
  }

  lemma InTurnOf(reps: seq<Expr>, needed: set<(Id, Id)>, computed: set<Id>, c: nat, p: (Id, Id))
    requires InTurn(reps, needed, computed, c) && p in needed
    ensures Earlier(reps, computed, p.0, c) && Earlier(reps, computed, p.1, c)
  {
  }

  lemma MemoryIsLoadOrStore(e: Expr)
    requires IsMemoryItem(e.item)
    ensures IsLoadItem(e.item) || IsStoreItem(e.item)
  {
  }

  // ----- the arguments of a class -----

  predicate ArgumentsThere(reps: seq<Expr>, positions: map<Id, set<int>>, c: Id)
    requires c < |reps|
  {
    |reps[c].args| <= 2 && forall j | 0 <= j < |reps[c].args| :: reps[c].args[j] in positions && Copies(positions, reps[c].args[j]) > 0
  }

  /** An argument of a class that has not been computed is wanted. */
  lemma ArgumentWanted(reps: seq<Expr>, expressions: map<Expr, Id>, needed: set<(Id, Id)>, final: set<Id>, present: set<Id>, start: set<Id>, positions: map<Id, set<int>>, c: Id, i: nat)
    requires WellFormed(reps) && Tidy(reps, expressions) && NeededOk(reps, needed, present)
    requires c < |reps| && i < |reps[c].args| && c !in positions && present <= positions.Keys && start <= positions.Keys
    requires Complete(reps, needed, present, c) && InTurn(reps, needed, start, c)
    ensures var a := reps[c].args[i];
            && a < c && Complete(reps, needed, present, a) && IsValue(reps, a)
            && Wanted(needed, final, positions.Keys, a, None) && InTurn(reps, needed, positions.Keys, a + 1)
  {
    hide LoadDependencies, InTurn, WellFormed, IsValue, Tidy;
    var a := reps[c].args[i];
    ClassArgsBelow(reps, c);
    TidyArgs(reps, expressions, c);
    assert (a, c) in needed;
    InTurnBefore(reps, needed, start, positions.Keys, c, a + 1);
  }

  lemma ClassArgsBelow(reps: seq<Expr>, c: Id)
    requires WellFormed(reps) && c < |reps|
    ensures forall i | 0 <= i < |reps[c].args| :: reps[c].args[i] < c
  {
    assert ArgsBelow(reps[c], c);
  }

  lemma TidyArgs(reps: seq<Expr>, expressions: map<Expr, Id>, c: Id)
    requires Tidy(reps, expressions) && c < |reps|
    ensures |reps[c].args| <= 2 && forall i | 0 <= i < |reps[c].args| :: IsValue(reps, reps[c].args[i])
  {
    hide IsValue;
    assert Usable(reps, reps[c].args);
  }

  lemma ArgumentsAvailable(reps: seq<Expr>, expressions: map<Expr, Id>, needed: set<(Id, Id)>, final: set<Id>, present: set<Id>, positions: map<Id, set<int>>, c: Id)
    requires WellFormed(reps) && Tidy(reps, expressions) && LiveAt(reps, needed, final, present, positions)
    requires c < |reps| && c !in positions && Complete(reps, needed, present, c)
    requires forall j | 0 <= j < |reps[c].args| :: reps[c].args[j] in positions
    ensures ArgumentsThere(reps, positions, c)
  {
    hide LoadDependencies, WellFormed, IsValue, Tidy, Closed;
    TidyArgs(reps, expressions, c);
    forall j | 0 <= j < |reps[c].args|
      ensures Copies(positions, reps[c].args[j]) > 0
    {
      assert (reps[c].args[j], c) in needed;
      assert Wanted(needed, final, positions.Keys, reps[c].args[j], None);
    }
  }

  lemma NothingSpare(needed: set<(Id, Id)>, final: set<Id>, positions: map<Id, set<int>>, c: Id)
    ensures Spare(needed, final, positions, c, [])
  {
  }

  lemma KeepsSelf(positions: map<Id, set<int>>)
    ensures KeepsCopies(positions, positions)
  {
  }

  lemma ResultCount(reps: seq<Expr>, c: Id)
    requires AllArityOk(reps) && c < |reps| && !reps[c].item.UndefinedItem?
    ensures ReturnValues(reps[c].item) <= 1
    ensures ReturnValues(reps[c].item) == 1 || IsStoreItem(reps[c].item)
  {
    hide ArgCount;
    assert ArityOk(reps[c]);
  }

  lemma MoreComputed(before: set<Id>, after: set<Id>, c: Id)
    requires NewUpTo(before, after, c)
    ensures before <= after
  {
  }

  /** When all loads and stores below a number have had their turn, they have been computed. */
  lemma SequencedInTurn(reps: seq<Expr>, needed: set<(Id, Id)>, sequenced: set<Id>, computed: set<Id>, c: nat)
    requires IsSequenced(reps, needed, sequenced) && forall x | x in sequenced && x < c :: x in computed
    ensures InTurn(reps, needed, computed, c)
  {
  }

  lemma LastStoresComputed(reps: seq<Expr>, seqNr: nat, needed: set<(Id, Id)>, present: set<Id>, groups: map<(Target, Id), seq<StoreOperation>>,
                           stores: seq<StoreOperation>, sequenced: set<Id>, computed: set<Id>)
    requires WellFormed(reps) && Chronological(reps, seqNr) && AllArityOk(reps) && Grouped(groups, stores) && StoresOf(reps, stores)
    requires Collected(reps, needed, present, groups) && IsSequenced(reps, needed, sequenced)
    requires forall c | c in present && c < |reps| :: !IsStoreItem(reps[c].item)
    requires forall x | x in sequenced :: x in computed
    ensures LastStores(groups, groups.Keys) <= computed
  {
    hide Chronological, IsSequenced, WellFormed, LoadDependencies, NewComplete, NeededOk, Ascending;
    forall key | key in groups && groups[key] != []
      ensures Last(groups[key]).expression in computed
    {
      var o := Last(groups[key]);
      var t := o.expression;
      assert GroupOk(key, groups[key], stores);
      assert o in stores;
      assert Describes(reps, o);
      assert Complete(reps, needed, present, t);
      assert (reps[t].args[0], t) in needed;
      StoreSequenced(reps, seqNr, needed, sequenced, t, (reps[t].args[0], t));
    }
  }

  /** A target class is final, complete and a value, and all loads have been computed. */
  lemma TargetReady(reps: seq<Expr>, needed: set<(Id, Id)>, final: set<Id>, present: set<Id>, target: map<int, Id>, start: set<Id>, computed: set<Id>, h: int)
    requires WellFormed(reps) && h in target && AreFinal(target, final) && StackValues(reps, target) && AllComplete(reps, needed, present, final)
    requires InTurn(reps, needed, start, |reps|) && start <= computed
    ensures target[h] in final && IsValue(reps, target[h]) && Complete(reps, needed, present, target[h])
    ensures InTurn(reps, needed, computed, target[h] + 1)
  {
    hide InTurn, Complete, WellFormed;
    assert IsValue(reps, target[h]);
    InTurnBefore(reps, needed, start, computed, |reps|, target[h] + 1);
  }

  lemma LivePresent(reps: seq<Expr>, needed: set<(Id, Id)>, final: set<Id>, present: set<Id>, positions: map<Id, set<int>>)
    requires LiveAt(reps, needed, final, present, positions)
    ensures present <= positions.Keys
  {
    hide Available, Closed;
  }

  lemma FinalAvailable(reps: seq<Expr>, needed: set<(Id, Id)>, final: set<Id>, present: set<Id>, positions: map<Id, set<int>>, c: Id)
    requires LiveAt(reps, needed, final, present, positions) && c in final && c in positions && IsValue(reps, c)
    ensures Copies(positions, c) > 0
  {
    hide Closed, Copies;
  }

  lemma HeightOf(target: map<int, Id>, final: set<Id>, c: Id) returns (h: int)
    requires OnlyTargets(target, final) && c in final
    ensures h in target && target[h] == c
  {
    h :| HoldsAt(target, h, c);
  }

  lemma StartLive(reps: seq<Expr>, needed: set<(Id, Id)>, final: set<Id>, positions: map<Id, set<int>>)
    requires PairsOk(reps, needed, positions.Keys) && forall c | c in positions :: |positions[c]| > 0
    ensures LiveAt(reps, needed, final, positions.Keys, positions)
  {
    hide Wanted, IsValue;
    forall p | p in needed
      ensures p.1 !in positions
    {
      assert PairOk(reps, positions.Keys, p);
    }
  }

  lemma ValuesStay(stack: map<int, Id>, reps: seq<Expr>, bigger: seq<Expr>)
    requires PureGrowth(reps, bigger) && StackValues(reps, stack)
    ensures StackValues(bigger, stack)
  {
    hide NoMemory, IsValue;
    ValueGrows(reps, bigger);
  }

  /** When the targets are in place and the last stores executed, everything needed has been computed. */
  lemma EverythingComputed(reps: seq<Expr>, lo: int, high: int, done: set<Id>, target: map<int, Id>, g: Gen, needed: set<(Id, Id)>, final: set<Id>, present: set<Id>, stores: set<Id>)
    requires GenInv(reps, lo, high + 1, done, target, g) && Contiguous(target, lo, high) && OnlyTargets(target, final)
    requires PairsOk(reps, needed, present) && Grounded(needed, stores + final) && LiveAt(reps, needed, final, present, g.positions)
    requires stores <= g.positions.Keys
    ensures forall p | p in needed :: p.1 in g.positions
  {
    hide RunsTo, WellFormed, ValidInit, IdsBelow, PairsOk, Grounded, Available, Closed;
    GenFacts(reps, lo, high + 1, done, target, g);
    forall c | c in final
      ensures c in g.positions
    {
      var h := HeightOf(target, final, c);
      assert HoldsAt(g.stack, h, c);
      assert IsPosition(g.positions, c, h);
    }
    forall p | p in needed
      ensures p.1 in g.positions
    {
      AllComputed(reps, needed, present, stores + final, g.positions.Keys, p);
    }
  }

  /** Computing a class keeps what is wanted, and everything it needed has been computed. */
  lemma ComputedLive(reps: seq<Expr>, lo: int, seqNr: nat, needed: set<(Id, Id)>, final: set<Id>, present: set<Id>, g: Gen, c: Id, ids: seq<Id>)
    requires ShapeOk(reps, lo, g) && OnTop(g, ids) && c < |reps| && |ids| == |reps[c].args| && AllArityOk(reps) && !reps[c].item.UndefinedItem?
    requires Chronological(reps, seqNr) && PairsOk(reps, needed, present) && LiveAt(reps, needed, final, present, g.positions)
    requires Spare(needed, final, g.positions, c, ids) && InTurn(reps, needed, g.positions.Keys, c)
    requires forall j | 0 <= j < |reps[c].args| :: reps[c].args[j] in g.positions
    ensures LiveAt(reps, needed, final, present, Applied(g, c, reps[c].item, |ids|).positions)
    ensures Applied(g, c, reps[c].item, |ids|).positions.Keys == g.positions.Keys + {c}
  {
    hide ShapeOk, OnTop, Spare, InTurn, Available, AllArityOk, ReturnValues, Applied, IsStoreItem, IsLoadItem;
    ResultCount(reps, c);
    ComputedAvailable(reps, lo, needed, final, g, c, reps[c].item, ids);
    forall p | p in needed && p.1 in g.positions.Keys + {c}
      ensures p.0 in g.positions.Keys + {c}
    {
      assert PairOk(reps, present, p);
      if p.1 == c && p.0 !in reps[c].args {
        InTurnOf(reps, needed, g.positions.Keys, c, p);
        StoreIsMemory(reps[p.0]);
        assert Sequenced(reps[p.0], seqNr);
      }
    }
  }

  predicate AreFinal(target: map<int, Id>, final: set<Id>) {
    forall h | h in target :: target[h] in final
  }

  /** Everything needed is recorded for all classes involved. */
  ghost predicate Collected(reps: seq<Expr>, needed: set<(Id, Id)>, present: set<Id>, groups: map<(Target, Id), seq<StoreOperation>>)
    requires WellFormed(reps)
  {
    && NewComplete(reps, {}, needed, present, None)
    && NeededOk(reps, needed, present)
    && LastComplete(reps, needed, present, groups, groups.Keys)
  }

  ghost predicate AllOverwritten(reps: seq<Expr>, done: set<Id>) {
    forall s | 0 <= s < |reps| && IsStoreItem(reps[s].item) :: Overwritten(reps, s, |reps|, done)
  }

  lemma InvolvedIds(reps: seq<Expr>, needed: set<(Id, Id)>, present: set<Id>, groups: map<(Target, Id), seq<StoreOperation>>)
    requires WellFormed(reps) && Collected(reps, needed, present, groups)
    ensures forall p | p in needed :: p.0 < |reps| && p.1 < |reps|
  {
    hide LastComplete;
  }

  predicate IsSequenced(reps: seq<Expr>, needed: set<(Id, Id)>, sequenced: set<Id>) {
    && (forall p | p in needed && p.0 < |reps| && reps[p.0].seqNr != 0 :: p.0 in sequenced)
    && (forall p | p in needed && p.1 < |reps| && reps[p.1].seqNr != 0 :: p.1 in sequenced)
    && (forall id | id in sequenced :: exists p :: p in needed && (p.0 == id || p.1 == id))
  }

  /** The order of the pairs of sequence number and class number. */
  predicate Precedes(reps: seq<Expr>, a: Id, b: Id)
    requires a < |reps| && b < |reps|
  {
    reps[a].seqNr < reps[b].seqNr || (reps[a].seqNr == reps[b].seqNr && a <= b)
  }

  /** Loads and stores are listed in the order of their sequence numbers. */
  lemma SequenceOrder(reps: seq<Expr>, seqNr: nat, id: Id, s: set<Id>)
    requires Chronological(reps, seqNr) && id in s && id < |reps|
    requires forall x | x in s :: x < |reps| && reps[x].seqNr != 0 && Precedes(reps, id, x)
    ensures forall x | x in s :: id <= x
  {
    forall x | x in s
      ensures id <= x
    {
      assert Sequenced(reps[x], seqNr) && Sequenced(reps[id], seqNr);
      assert id <= x || InOrder(reps[x], reps[id]);
    }
  }

  lemma InvolvedComplete(reps: seq<Expr>, needed: set<(Id, Id)>, present: set<Id>, groups: map<(Target, Id), seq<StoreOperation>>, sequenced: set<Id>, id: Id)
    requires WellFormed(reps) && Collected(reps, needed, present, groups) && IsSequenced(reps, needed, sequenced) && id in sequenced
    ensures Complete(reps, needed, present, id)
  {
    hide LastComplete, Complete;
    var p :| p in needed && (p.0 == id || p.1 == id);
  }

  /** Exactly the stores among the classes that had their turn have been executed. */
  predicate InProgress(reps: seq<Expr>, sequenced: set<Id>, rest: set<Id>, done: set<Id>) {
    && (forall x, y | x in sequenced && x !in rest && y in rest :: x < y)
    && (forall x | x in sequenced && x !in rest && x < |reps| && IsStoreItem(reps[x].item) :: x in done)
    && (forall x | x in done :: x in sequenced && x !in rest)
  }

  lemma NoProgress(reps: seq<Expr>, sequenced: set<Id>)
    ensures InProgress(reps, sequenced, sequenced, {})
  {
  }

  lemma ProgressStep(reps: seq<Expr>, sequenced: set<Id>, rest: set<Id>, done: set<Id>, done': set<Id>, id: Id)
    requires InProgress(reps, sequenced, rest, done) && rest <= sequenced && id in rest && id < |reps|
    requires forall x | x in rest :: id <= x
    requires done' == done || done' == done + {id}
    requires IsStoreItem(reps[id].item) ==> id in done'
    ensures InProgress(reps, sequenced, rest - {id}, done')
  {
  }

  /** When a load or store has its turn, all stores before it that it needs have been executed. */
  lemma SequencedReady(reps: seq<Expr>, seqNr: nat, needed: set<(Id, Id)>, present: set<Id>, groups: map<(Target, Id), seq<StoreOperation>>,
                       sequenced: set<Id>, rest: set<Id>, done: set<Id>, id: Id)
    requires WellFormed(reps) && Chronological(reps, seqNr) && AllArityOk(reps)
    requires Collected(reps, needed, present, groups) && IsSequenced(reps, needed, sequenced)
    requires rest <= sequenced && id in rest && id < |reps| && id !in present
    requires InProgress(reps, sequenced, rest, done) && forall x | x in rest :: id <= x
    ensures IsLoadItem(reps[id].item) ==> LoadReady(reps, id, done)
    ensures forall x | x in done :: x < id
  {
    hide Collected, Chronological, IsSequenced, ArityOk, Independent, WellFormed;
    if IsLoadItem(reps[id].item) {
      InvolvedComplete(reps, needed, present, groups, sequenced, id);
      LoadHasOne(reps[id]);
      forall s | 0 <= s < id && Touches(reps[s], reps[id])
        ensures Independent(reps, reps[s].item.instr, reps[s].args[0], reps[id].args[0]) || Overwritten(reps, s, id, done)
      {
        if !Independent(reps, reps[s].item.instr, reps[s].args[0], reps[id].args[0]) {
          var t :| s <= t < id && (t, id) in needed && SameSlot(reps[s], reps[t]);
          StoreSequenced(reps, seqNr, needed, sequenced, t, (t, id));
        }
      }
    }
  }

  lemma StoreSequenced(reps: seq<Expr>, seqNr: nat, needed: set<(Id, Id)>, sequenced: set<Id>, t: Id, p: (Id, Id))
    requires Chronological(reps, seqNr) && IsSequenced(reps, needed, sequenced)
    requires p in needed && (p.0 == t || p.1 == t) && t < |reps| && IsStoreItem(reps[t].item)
    ensures t in sequenced
  {
    assert Sequenced(reps[t], seqNr);
  }

  lemma StoredAlready(reps: seq<Expr>, lo: int, b: int, done: set<Id>, target: map<int, Id>, g: Gen, id: Id)
    requires GenInv(reps, lo, b, done, target, g) && id in g.positions && id < |reps|
    ensures IsStoreItem(reps[id].item) ==> id in done
  {
    hide GenOk;
  }

  /** In the end the last store to every slot has been executed. */
  lemma LastStoresDone(reps: seq<Expr>, seqNr: nat, needed: set<(Id, Id)>, present: set<Id>, groups: map<(Target, Id), seq<StoreOperation>>,
                       stores: seq<StoreOperation>, sequenced: set<Id>, done: set<Id>)
    requires WellFormed(reps) && Chronological(reps, seqNr) && AllArityOk(reps) && Grouped(groups, stores) && StoresOf(reps, stores)
    requires Collected(reps, needed, present, groups) && IsSequenced(reps, needed, sequenced)
    requires forall c | c in present && c < |reps| :: !IsStoreItem(reps[c].item)
    requires InProgress(reps, sequenced, {}, done)
    ensures AllOverwritten(reps, done)
  {
    hide Chronological, IsSequenced, ArityOk, WellFormed, Grouped, NewComplete, NeededOk, StoresOf;
    forall s | 0 <= s < |reps| && IsStoreItem(reps[s].item)
      ensures Overwritten(reps, s, |reps|, done)
    {
      LastStoreDone(reps, seqNr, needed, present, groups, stores, sequenced, done, s);
    }
  }

  lemma LastStoreDone(reps: seq<Expr>, seqNr: nat, needed: set<(Id, Id)>, present: set<Id>, groups: map<(Target, Id), seq<StoreOperation>>,
                      stores: seq<StoreOperation>, sequenced: set<Id>, done: set<Id>, s: Id)
    requires WellFormed(reps) && Chronological(reps, seqNr) && AllArityOk(reps) && Grouped(groups, stores) && StoresOf(reps, stores)
    requires LastComplete(reps, needed, present, groups, groups.Keys) && IsSequenced(reps, needed, sequenced)
    requires forall c | c in present && c < |reps| :: !IsStoreItem(reps[c].item)
    requires forall x | x in sequenced && x < |reps| && IsStoreItem(reps[x].item) :: x in done
    requires s < |reps| && IsStoreItem(reps[s].item)
    ensures Overwritten(reps, s, |reps|, done)
  {
    hide Chronological, IsSequenced, WellFormed, Grouped, LoadDependencies;
    var o := RecordOf(reps, s);
    assert o in stores;
    GroupedFacts(groups, stores, o);
    var group := groups[(o.target, o.slot)];
    var x := Last(group);
    var i :| 0 <= i < |group| && group[i] == o;
    assert x in stores;
    assert Describes(reps, x) && Describes(reps, o);
    StoreIsMemory(reps[s]);
    StoreBefore(reps, seqNr, x, s);
    var t := x.expression;
    assert Complete(reps, needed, present, t);
    assert (reps[t].args[0], t) in needed;
    StoreSequenced(reps, seqNr, needed, sequenced, t, (reps[t].args[0], t));
    assert SameSlot(reps[s], reps[t]);
  }

  lemma StoreIsMemory(e: Expr)
    requires IsStoreItem(e.item)
    ensures IsMemoryItem(e.item)
  {
  }

  lemma OnePlaced(reps: seq<Expr>, lo: int, b: int, done: set<Id>, target: map<int, Id>, g: Gen)
    requires GenInv(reps, lo, b, done, target, g) && b in target && HoldsAt(g.stack, b, target[b])
    ensures GenInv(reps, lo, b + 1, done, target, g)
  {
    hide RunsTo, ValidInit, WellFormed, IdsBelow, PositionsOk;
  }

  lemma NothingNeeded(reps: seq<Expr>, present: set<Id>)
    requires WellFormed(reps)
    ensures NeededOk(reps, {}, present) && PairsOk(reps, {}, present)
  {
  }

  /** Before the first item, the generator describes the initial state. */
  lemma StartInv(reps: seq<Expr>, bigger: seq<Expr>, lo: int, target: map<int, Id>, g: Gen)
    requires Starts(reps, lo, g.stack) && WellFormed(bigger) && PureGrowth(reps, bigger)
    requires g.items == [] && g.height == 0 && PositionsOk(g.stack, g.positions)
    requires forall c | c in g.positions :: |g.positions[c]| > 0
    ensures GenInv(bigger, lo, lo, {}, target, g)
    ensures forall c | c in g.positions && c < |bigger| :: !IsStoreItem(bigger[c].item)
  {
    hide ValidInit, WellFormed, StackAgrees, Nu, Replay, NoMemory;
    forall init | ValidInit(init) && Deep(init, lo)
      ensures RunsTo(init, bigger, {}, g)
    {
      GrowthKeepsMeaning(init, reps, bigger);
      StackExtends(Nu(init, reps), Nu(init, bigger), init.stack, 0, g.stack, init.stack);
      ReplayNothing(init, Nu(init, bigger), bigger);
    }
    forall c | c in g.positions && c < |bigger|
      ensures !IsStoreItem(bigger[c].item)
    {
      NonEmpty(g.positions[c]);
      var h :| h in g.positions[c];
      assert HoldsAt(g.stack, h, c);
    }
  }

  lemma FinalHeightIs(reps: seq<Expr>, low: int, high: int, initial: map<int, Id>, target: map<int, Id>, height: int)
    requires Starts(reps, low, initial) && Contiguous(target, low, high)
    requires target.Keys != {} ==> height in target && forall h | h in target :: h <= height
    requires target.Keys == {} && initial.Keys != {} ==> height + 1 in initial && forall h | h in initial :: height + 1 <= h
    requires target.Keys == {} && initial.Keys == {} ==> height == 0
    ensures height == high
  {
    hide ValidInit, WellFormed, StackAgrees, Nu;
    assert low <= high ==> high in target.Keys;
    assert low <= 0 ==> low in initial.Keys;
  }

  /** When all targets are in place and nothing else is left, the generated items are correct. */
  lemma AllGenerated(reps: seq<Expr>, low: int, high: int, done: set<Id>, target: map<int, Id>, g: Gen)
    requires GenInv(reps, low, high + 1, done, target, g) && g.height == high && AllArityOk(reps) && AllOverwritten(reps, done)
    requires Contiguous(target, low, high)
    ensures Generated(reps, low, high, target, g.items)
  {
    hide ValidInit, WellFormed, PositionsOk, StackAgrees, Nu, Replay, AllArityOk, Overwritten;
    forall h | h in g.stack
      ensures h in target && target[h] == g.stack[h]
    {
      assert low <= h < high + 1;
    }
    forall h | h in target
      ensures h in g.stack
    {
      assert low <= h <= g.height;
    }
    assert g.stack == target;
    forall init | ValidInit(init) && Deep(init, low)
      ensures GeneratedAt(init, reps, high, target, g.items)
    {
      assert RunsTo(init, reps, done, g);
      FinalWorld(init, reps, done);
    }
  }

  /** The pushed tags among the items are taken from the given ones. */
  ghost predicate OnlyPushes(items: seq<Item>, pushed: iset<Item>) {
    forall i | 0 <= i < |items| :: MayPush(items[i], pushed)
  }

  lemma IdsStayBelow(stack: map<int, Id>, reps: seq<Expr>, bigger: seq<Expr>)
    requires PureGrowth(reps, bigger) && IdsBelow(stack, |reps|)
    ensures IdsBelow(stack, |bigger|)
  {
    hide NoMemory;
  }

  lemma PushesNothing(pushed: iset<Item>)
    ensures OnlyPushes([], pushed)
  {
  }

  lemma PushesOneMore(items: seq<Item>, item: Item, pushed: iset<Item>)
    requires OnlyPushes(items, pushed) && MayPush(item, pushed)
    ensures OnlyPushes(items + [item], pushed)
  {
    hide MayPush;
  }

  lemma PushesFewer(items: seq<Item>, n: nat, pushed: iset<Item>)
    requires OnlyPushes(items, pushed) && n <= |items|
    ensures OnlyPushes(items[..n], pushed)
  {
    hide MayPush;
  }

  /** The elements of the initial stack that have classes are among the given classes. */
  predicate InputsAmong(reps: seq<Expr>, keys: set<Id>) {
    forall i | 0 <= i < |reps| && reps[i].item.UndefinedItem? :: i in keys
  }

  function ClassesOf(stack: map<int, Id>): set<Id> {
    set h | h in stack :: stack[h]
  }

  lemma InputsPositioned(reps: seq<Expr>, stack: map<int, Id>, positions: map<Id, set<int>>)
    requires InputsAmong(reps, ClassesOf(stack)) && PositionsOk(stack, positions)
    ensures InputsAmong(reps, positions.Keys)
  {
    forall i | 0 <= i < |reps| && reps[i].item.UndefinedItem?
      ensures i in positions.Keys
    {
      var h :| h in stack && stack[h] == i;
      assert IsPosition(positions, i, h);
    }
  }

  /** Lookups that look at no elements of the initial stack make no new classes for them. */
  lemma NoNewInputs(reps: seq<Expr>, x: map<Expr, Id>, bigger: seq<Expr>, y: map<Expr, Id>, keys: set<Id>)
    requires TableOk(reps, x) && OwnClasses(bigger, y) && reps <= bigger && Remembers(x, y) && NoInputs(x, y) && InputsAmong(reps, keys)
    ensures InputsAmong(bigger, keys)
  {
    hide ArityOk, Means;
    forall i | 0 <= i < |bigger| && bigger[i].item.UndefinedItem?
      ensures i in keys
    {
      assert bigger[i] in y && y[bigger[i]] == i;
      assert bigger[i] in x;
      assert Recorded(reps, bigger[i], x[bigger[i]]);
    }
  }

  function UpTo(n: nat): set<Id> {
    if n == 0 then {} else UpTo(n - 1) + {n - 1}
  }

  lemma {:induction false} UpToIs(n: nat, c: Id)
    ensures c in UpTo(n) <==> c < n
  {
    if n > 0 {
      UpToIs(n - 1, c);
    }
  }

  /** The number of classes that have not been computed. */
  function NotYet(n: nat, keys: set<Id>): nat {
    |UpTo(n) - keys|
  }

  lemma OneLess(n: nat, keys: set<Id>, c: Id)
    requires c < n && c !in keys
    ensures NotYet(n, keys) == NotYet(n, keys + {c}) + 1
  {
    UpToIs(n, c);
    assert UpTo(n) - keys == (UpTo(n) - (keys + {c})) + {c};
  }

  lemma {:induction false} NotYetAtMost(n: nat, keys: set<Id>)
    ensures NotYet(n, keys) <= n
  {
    if n > 0 {
      NotYetAtMost(n - 1, keys);
      var rest := UpTo(n - 1) - keys;
      UpToIs(n - 1, n - 1);
      assert UpTo(n) - keys == if n - 1 in keys then rest else rest + {n - 1};
    }
  }

  predicate IsHighest(positions: map<Id, set<int>>, c: Id, h: int) {
    IsPosition(positions, c, h) && forall x | x in positions[c] :: x <= h
  }

  class CodeGenerator {
    const classes: ExpressionClasses
    /** The stores to every slot, in ascending order of their sequence numbers. */
    var storeOperations: map<(Target, Id), seq<StoreOperation>>
    var generatedItems: seq<Item>
    /** How far the stack is above (or below) the one that the block starts with. */
    var stackHeight: int
    /** (b, a) is in this set if b is needed to compute a. */
    var neededBy: set<(Id, Id)>
    var stack: map<int, Id>
    /** Current positions of the classes; the empty set if a class was computed and removed again. */
    var classPositions: map<Id, set<int>>
    var finalClasses: set<Id>
    var targetStack: map<int, Id>

    /** The lowest height that is touched, the height below which the target is in place, and the
        executed stores. */
    ghost var lo: int
    ghost var bound: int
    ghost var done: set<Id>
    /** The classes on the stack at the start. */
    ghost var present: set<Id>
    /** No load or store has a higher sequence number. */
    ghost var lastSeqNr: nat
    /** All stores of the block. */
    ghost const stores: seq<StoreOperation>

    constructor (classes: ExpressionClasses, stores: seq<StoreOperation>)
      requires Ascending(stores)
      ensures this.classes == classes && this.stores == stores && Grouped(storeOperations, stores)
      ensures generatedItems == [] && neededBy == {} && stack == map[] && classPositions == map[] && finalClasses == {}
    {
      this.classes := classes;
      this.stores := stores;
      storeOperations := map[];
      generatedItems, stackHeight, neededBy, stack := [], 0, {}, map[];
      classPositions, finalClasses, targetStack := map[], {}, map[];
      new;
      var i := 0;
      while i < |stores|
        invariant 0 <= i <= |stores| && Grouped(storeOperations, stores[..i])
        invariant generatedItems == [] && neededBy == {} && stack == map[] && classPositions == map[] && finalClasses == {}
      {
        hide Grouped;
        assert stores[..i + 1] == stores[..i] + [stores[i]];
        GroupedAppend(storeOperations, stores[..i], stores[i]);
        storeOperations := AddToGroup(storeOperations, stores[i]);
        i := i + 1;
      }
      assert stores[..i] == stores;
    }

    ghost function Now(): Gen
      reads this
    {
      Gen(generatedItems, stackHeight, stack, classPositions)
    }

    ghost predicate Inv()
      reads this, classes
    {
      && classes.Valid() && Chronological(classes.representatives, lastSeqNr)
      && GenInv(classes.representatives, lo, bound, done, targetStack, Now())
      && AreFinal(targetStack, finalClasses)
      && OnlyPushes(generatedItems, classes.pushed)
      && OnceAmong(classes.representatives, classPositions.Keys, generatedItems)
    }

    /** The dependency graph is complete; it does not change during the generation. */
    ghost predicate Planned()
      reads `neededBy, `present, classes
    {
      && classes.Valid() && Tidy(classes.representatives, classes.expressions)
      && PairsOk(classes.representatives, neededBy, present)
      && NeededOk(classes.representatives, neededBy, present)
    }

    /** Nothing that is still wanted has been lost. */
    ghost predicate Live()
      reads this, classes
    {
      LiveAt(classes.representatives, neededBy, finalClasses, present, classPositions)
    }

    /** The size of the stack if every class that has not been computed were put on it. It never grows. */
    ghost function Peak(): int
      reads this, classes
    {
      stackHeight - lo + NotYet(|classes.representatives|, classPositions.Keys)
    }

    /** The position of a class on the stack; it is an error to ask for a class without a copy. */
    method ClassElementPosition(c: Id) returns (r: Result<int>)
      requires Inv()
      ensures r.Success? <==> Copies(classPositions, c) > 0
      ensures r.Failure? ==> r.error == OptimizerFailure
      ensures r.Success? ==> HoldsAt(stack, r.value, c) && IsPosition(classPositions, c, r.value)
      ensures r.Success? ==> forall h | h in classPositions[c] :: h <= r.value
    {
      hide OwnClasses, RunsTo, WellFormed, ValidInit, TableOk, Placed, IdsBelow;
      if c !in classPositions || |classPositions[c]| == 0 {
        return Failure(OptimizerFailure);
      }
      var h := MaxOf(classPositions[c]);
      r := Success(h);
    }

    /** Whether the copy of the class at the position is not needed any more, in general or while
        computing `result`. */
    predicate CanBeRemoved(element: Id, result: Option<Id>, from: int)
      requires element in classPositions
      reads this
    {
      var haveCopy := |classPositions[element]| > 1;
      if element in finalClasses then haveCopy && (from !in targetStack || targetStack[from] != element)
      else haveCopy || forall p | p in neededBy && p.0 == element :: Some(p.1) == result || p.1 in classPositions
    }

    /** What can be removed has other copies, or is not wanted any more. */
    lemma RemovableSpare(element: Id, result: Option<Id>, from: int)
      requires element in classPositions && CanBeRemoved(element, result, from)
      ensures Wanted(neededBy, finalClasses, classPositions.Keys, element, result) ==> Copies(classPositions, element) > 1
    {
    }

    method AppendItem(item: Item)
      modifies `generatedItems, `stackHeight
      ensures generatedItems == old(generatedItems) + [item] && stackHeight == old(stackHeight) + Deposit(item)
    {
      generatedItems := generatedItems + [item];
      stackHeight := stackHeight + Deposit(item);
    }

    method AppendDup(from: int) returns (r: Result<()>)
      requires Inv() && from in stack
      modifies `generatedItems, `stackHeight, `stack, `classPositions
      ensures r.Failure? <==> old(stackHeight) - from >= 16
      ensures r.Failure? ==> r.error == StackTooDeep
      ensures r.Success? ==>
                && Inv() && from < stackHeight == old(stackHeight) + 1
                && stack == old(stack)[stackHeight := old(stack)[from]]
                && generatedItems == old(generatedItems) + [DupItem(stackHeight - from)]
                && KeepsCopies(old(classPositions), classPositions)
                && Copies(classPositions, old(stack)[from]) == Copies(old(classPositions), old(stack)[from]) + 1
    {
      hide OwnClasses, GenInv, OnlyPushes, OnceAmong, TableOk, Deposit;
      ghost var g := Now();
      GenFacts(classes.representatives, lo, bound, done, targetStack, g);
      var instructionNum := 1 + stackHeight - from;
      if instructionNum > 16 {
        return Failure(StackTooDeep);
      }
      DupInv(classes.representatives, lo, bound, done, targetStack, g, from);
      MoveDeposits(instructionNum);
      PushesOneMore(generatedItems, DupItem(instructionNum), classes.pushed);
      ArrangedOnce(classes.representatives, g.positions.Keys, generatedItems, DupItem(instructionNum));
      AppendItem(DupItem(instructionNum));
      stack := stack[stackHeight := stack[from]];
      classPositions := WithPosition(classPositions, stack[stackHeight], stackHeight);
      assert Now() == Append(Put(g, g.stack[from]), DupItem(instructionNum));
      assert IsPosition(g.positions, g.stack[from], from);
      DupCopies(classes.representatives, lo, g, g.stack[from]);
      r := Success(());
    }

    /** Brings the element at the position to the top. Two equal swaps in a row cancel out. */
    method AppendOrRemoveSwap(from: int) returns (r: Result<()>)
      requires Inv() && bound <= from
      modifies `generatedItems, `stackHeight, `stack, `classPositions
      ensures r.Success? <==> from <= old(stackHeight) <= from + 16
      ensures r.Failure? ==> r.error == if old(stackHeight) > from + 16 then StackTooDeep else OptimizerFailure
      ensures r.Success? ==>
                && Inv() && from <= stackHeight == old(stackHeight)
                && (from == stackHeight ==> Now() == old(Now()))
                && (from < stackHeight ==> from in old(stack) && stackHeight in old(stack) && stack == Exchanged(old(stack), stackHeight, from))
                && KeepsCopies(old(classPositions), classPositions)
      ensures r.Success? && from < stackHeight ==> generatedItems == WithSwap(old(generatedItems), SwapItem(stackHeight - from))
    {
      hide OwnClasses, GenInv, OnlyPushes, OnceAmong, TableOk, Deposit, ShapeOk, Moved, Copies;
      ghost var g := Now();
      if from == stackHeight {
        return Success(());
      }
      var instructionNum := stackHeight - from;
      if instructionNum > 16 {
        return Failure(StackTooDeep);
      }
      if instructionNum < 1 {
        return Failure(OptimizerFailure);
      }
      SwapInv(classes.representatives, lo, bound, done, targetStack, g, from);
      SwapFacts(classes.representatives, lo, bound, done, targetStack, g, from);
      GenFacts(classes.representatives, lo, bound, done, targetStack, g);
      SwapCopies(classes.representatives, lo, g, from);
      MoveDeposits(instructionNum);
      PushesOneMore(generatedItems, SwapItem(instructionNum), classes.pushed);
      ArrangedOnce(classes.representatives, g.positions.Keys, generatedItems, SwapItem(instructionNum));
      AppendItem(SwapItem(instructionNum));
      var top, other := stack[stackHeight], stack[from];
      classPositions := Moved(classPositions, top, stackHeight, other, from);
      stack := stack[stackHeight := other][from := top];
      assert Now() == Append(Turned(g, from), SwapItem(instructionNum));
      var n := |generatedItems|;
      if n >= 2 && IsSwapItem(generatedItems[n - 1]) && generatedItems[n - 2] == generatedItems[n - 1] {
        CancelInv(classes.representatives, lo, bound, done, targetStack, Now());
        PushesFewer(generatedItems, n - 2, classes.pushed);
        CancelledOnce(classes.representatives, g.positions.Keys, generatedItems);
        generatedItems := generatedItems[..n - 2];
      }
      r := Success(());
    }

    /** The top of the stack is not needed any more. */
    predicate TopIsSurplus()
      reads this
    {
      && stack != map[] && stackHeight in stack && stack[stackHeight] in classPositions
      && CanBeRemoved(stack[stackHeight], None, stackHeight)
    }

    method RemoveStackTopIfPossible() returns (removed: bool)
      requires Inv()
      modifies `generatedItems, `stackHeight, `stack, `classPositions
      ensures Inv()
      ensures removed <==> old(TopIsSurplus())
      ensures removed ==> stackHeight == old(stackHeight) - 1 && stack == old(stack) - {old(stackHeight)}
      ensures removed ==> generatedItems == old(generatedItems) + [Operation(POP)]
      ensures !removed ==> Now() == old(Now())
      ensures classPositions.Keys == old(classPositions).Keys
      ensures old(Live()) ==> Live()
    {
      hide OwnClasses, GenInv, OnlyPushes, OnceAmong, TableOk, Deposit, Available, Wanted, Copies, Closed;
      ghost var g := Now();
      GenFacts(classes.representatives, lo, bound, done, targetStack, g);
      if stack == map[] {
        return false;
      }
      TopInStack(classes.representatives, lo, g);
      var top := stack[stackHeight];
      if !CanBeRemoved(top, None, stackHeight) {
        return false;
      }
      NotPlaced(classes.representatives, lo, bound, done, targetStack, g, top, stackHeight);
      RemovableSpare(top, None, stackHeight);
      if Live() {
        RemovedAvailable(classes.representatives, neededBy, finalClasses, classPositions, top, stackHeight);
      }
      PopInv(classes.representatives, lo, bound, done, targetStack, g);
      classPositions := WithoutPosition(classPositions, top, stackHeight);
      stack := stack - {stackHeight};
      assert classPositions.Keys == g.positions.Keys;
      MoveDeposits(1);
      PushesOneMore(generatedItems, Operation(POP), classes.pushed);
      ArrangedOnce(classes.representatives, g.positions.Keys, generatedItems, Operation(POP));
      AppendItem(Operation(POP));
      assert Now() == Append(Taken(g), Operation(POP));
      removed := true;
    }

    /** The highest copy of the class may be taken to compute `result`. */
    ghost predicate Movable(c: Id, result: Id)
      reads this
    {
      exists h :: IsHighest(classPositions, c, h) && CanBeRemoved(c, Some(result), h)
    }

    /** The position of a class, and whether it may be taken from there to compute `result`. */
    method Locate(c: Id, result: Id) returns (h: int, removable: bool)
      requires Inv() && Copies(classPositions, c) > 0
      ensures HoldsAt(stack, h, c) && lo <= h <= stackHeight
      ensures removable ==> bound <= h
      ensures removable <==> Movable(c, result)
      ensures removable && Wanted(neededBy, finalClasses, classPositions.Keys, c, Some(result)) ==> Copies(classPositions, c) > 1
    {
      hide OwnClasses, GenInv, OnlyPushes, OnceAmong, TableOk, Wanted;
      var at := ClassElementPosition(c);
      h := at.value;
      removable := CanBeRemoved(c, Some(result), h);
      assert IsHighest(classPositions, c, h);
      GenFacts(classes.representatives, lo, bound, done, targetStack, Now());
      if removable {
        RemovableSpare(c, Some(result), h);
        NotPlaced(classes.representatives, lo, bound, done, targetStack, Now(), c, h);
      }
    }

    /** Moves or copies the argument of a class to the top. */
    method ArrangeOne(a: Id, result: Id) returns (r: Result<()>)
      requires Inv() && Copies(classPositions, a) > 0
      modifies `generatedItems, `stackHeight, `stack, `classPositions
      ensures r.Success? ==> Inv() && bound <= stackHeight && KeepsCopies(old(classPositions), classPositions)
      ensures r.Success? ==> HoldsAt(stack, stackHeight, a) && Spare(neededBy, finalClasses, classPositions, result, [a])
      ensures r.Failure? ==> r.error == StackTooDeep && old(stackHeight) - lo >= 16
      ensures r.Success? ==> stackHeight == old(stackHeight) + if old(Movable(a, result)) then 0 else 1
    {
      hide IsHighest, OwnClasses, GenInv, OnlyPushes, OnceAmong, TableOk, Copies, Wanted, Spare;
      InvBounds(classes.representatives, lo, bound, done, targetStack, Now());
      ghost var before := Now();
      var h, removable := Locate(a, result);
      if removable {
        r := AppendOrRemoveSwap(h);
        if r.Success? {
          MovedToTop(before.stack, stack, before.height, h, a);
        }
      } else {
        r := AppendDup(h);
      }
      if r.Success? {
        CopiesKept(before.positions, classPositions, a);
        SpareOne(neededBy, finalClasses, before.positions, classPositions, result, a);
      }
    }

    /** Moves or copies the two arguments of a class to the top. */
    method ArrangeTwo(a: Id, b: Id, result: Id) returns (r: Result<()>)
      requires Inv() && Copies(classPositions, a) > 0 && Copies(classPositions, b) > 0
      modifies `generatedItems, `stackHeight, `stack, `classPositions
      ensures r.Success? ==> Inv() && bound <= stackHeight - 1 && KeepsCopies(old(classPositions), classPositions)
      ensures r.Success? ==> HoldsAt(stack, stackHeight, a) && HoldsAt(stack, stackHeight - 1, b)
      ensures r.Success? ==> Spare(neededBy, finalClasses, classPositions, result, [a, b])
      ensures r.Failure? ==> r.error == StackTooDeep && old(stackHeight) + 1 - lo >= 16
      ensures r.Success? ==> stackHeight <= old(stackHeight) + if old(Movable(b, result)) then 1 else 2
    {
      hide IsHighest, OwnClasses, GenInv, OnlyPushes, OnceAmong, TableOk, Copies, KeepsCopies, Wanted, Spare;
      var h, removable := Locate(b, result);
      if removable {
        r := ArrangeMoved(a, b, result, h);
      } else {
        r := ArrangeCopied(a, b, result, h);
      }
    }

    /** The second argument can be taken from its position. */
    method ArrangeMoved(a: Id, b: Id, result: Id, from: int) returns (r: Result<()>)
      requires HoldsAt(stack, from, b) && bound <= from <= stackHeight
      requires Inv() && Copies(classPositions, a) > 0
      requires Wanted(neededBy, finalClasses, classPositions.Keys, b, Some(result)) ==> Copies(classPositions, b) > 1
      modifies `generatedItems, `stackHeight, `stack, `classPositions
      ensures r.Success? ==> Inv() && bound <= stackHeight - 1 && KeepsCopies(old(classPositions), classPositions)
      ensures r.Success? ==> HoldsAt(stack, stackHeight, a) && HoldsAt(stack, stackHeight - 1, b)
      ensures r.Success? ==> Spare(neededBy, finalClasses, classPositions, result, [a, b])
      ensures r.Failure? ==> r.error == StackTooDeep && old(stackHeight) + 1 - lo >= 16
      ensures r.Success? ==> stackHeight <= old(stackHeight) + 1
    {
      hide IsHighest, OwnClasses, GenInv, OnlyPushes, OnceAmong, TableOk, Copies, KeepsCopies, Wanted, Spare;
      InvBounds(classes.representatives, lo, bound, done, targetStack, Now());
      ghost var before := Now();
      r := AppendOrRemoveSwap(from);
      if r.Failure? {
        return;
      }
      MovedToTop(before.stack, stack, before.height, from, b);
      CopiesKept(before.positions, classPositions, a);
      CopiesKept(before.positions, classPositions, b);
      ghost var moved := classPositions;
      if a == b {
        r := AppendDup(stackHeight);
      } else {
        r := ArrangeFirst(a, b, result);
      }
      if r.Success? {
        KeepsTransitive(before.positions, moved, classPositions);
        CopiesKept(moved, classPositions, b);
        SpareMoved(neededBy, finalClasses, moved, classPositions, result, a, b);
      }
    }

    /** The second argument is on top; the first one is put above it. */
    method ArrangeFirst(a: Id, b: Id, result: Id) returns (r: Result<()>)
      requires Inv() && Copies(classPositions, a) > 0 && a != b && bound <= stackHeight && HoldsAt(stack, stackHeight, b)
      modifies `generatedItems, `stackHeight, `stack, `classPositions
      ensures r.Success? ==> Inv() && bound <= stackHeight - 1 && KeepsCopies(old(classPositions), classPositions)
      ensures r.Success? ==> HoldsAt(stack, stackHeight, a) && HoldsAt(stack, stackHeight - 1, b)
      ensures r.Success? && Wanted(neededBy, finalClasses, classPositions.Keys, a, Some(result)) ==> Copies(classPositions, a) > 1
      ensures r.Failure? ==> r.error == StackTooDeep && old(stackHeight) - lo >= 16
      ensures r.Success? ==> stackHeight == old(stackHeight) + if old(Movable(a, result)) then 0 else 1
    {
      hide IsHighest, OwnClasses, GenInv, OnlyPushes, OnceAmong, TableOk, Copies, KeepsCopies, Wanted;
      InvBounds(classes.representatives, lo, bound, done, targetStack, Now());
      ghost var before := Now();
      var first, removable := Locate(a, result);
      if removable {
        r := SwapFirst(a, b, first);
      } else {
        r := AppendDup(first);
      }
      if r.Success? {
        CopiesKept(before.positions, classPositions, a);
      }
    }

    /** Swaps the first argument, which can be taken from its position, above the second one. */
    method SwapFirst(a: Id, ghost b: Id, ghost first: int) returns (r: Result<()>)
      requires Inv() && Copies(classPositions, a) > 0 && a != b && HoldsAt(stack, stackHeight, b)
      requires HoldsAt(stack, first, a) && bound <= first <= stackHeight
      modifies `generatedItems, `stackHeight, `stack, `classPositions
      ensures r.Success? ==> Inv() && bound <= stackHeight - 1 && KeepsCopies(old(classPositions), classPositions)
      ensures r.Success? ==> HoldsAt(stack, stackHeight, a) && HoldsAt(stack, stackHeight - 1, b)
      ensures r.Failure? ==> r.error == StackTooDeep && old(stackHeight) - lo >= 16
      ensures r.Success? ==> stackHeight == old(stackHeight)
    {
      hide OwnClasses, GenInv, OnlyPushes, OnceAmong, TableOk, Copies, KeepsCopies, Wanted;
      InvBounds(classes.representatives, lo, bound, done, targetStack, Now());
      ghost var before := Now();
      var swapped := AppendOrRemoveSwap(stackHeight - 1);
      ghost var g := Now();
      MovedFromTop(before.stack, stack, before.height, stackHeight - 1, b);
      CopiesKept(before.positions, classPositions, a);
      var h := ClassElementPosition(a);
      GenFacts(classes.representatives, lo, bound, done, targetStack, Now());
      StillThere(classes.representatives, lo, before.stack, Now(), first, a, h.value);
      r := AppendOrRemoveSwap(h.value);
      if r.Success? {
        MovedToTop(g.stack, stack, g.height, h.value, a);
        KeepsTransitive(before.positions, g.positions, classPositions);
      }
    }

    /** The second argument has to stay at its position. */
    method ArrangeCopied(a: Id, b: Id, result: Id, from: int) returns (r: Result<()>)
      requires HoldsAt(stack, from, b)
      requires Inv() && Copies(classPositions, a) > 0 && Copies(classPositions, b) > 0
      modifies `generatedItems, `stackHeight, `stack, `classPositions
      ensures r.Success? ==> Inv() && bound <= stackHeight - 1 && KeepsCopies(old(classPositions), classPositions)
      ensures r.Success? ==> HoldsAt(stack, stackHeight, a) && HoldsAt(stack, stackHeight - 1, b)
      ensures r.Success? ==> Spare(neededBy, finalClasses, classPositions, result, [a, b])
      ensures r.Failure? ==> r.error == StackTooDeep && old(stackHeight) + 1 - lo >= 16
      ensures r.Success? ==> stackHeight == old(stackHeight) + if a != b && old(Movable(a, result)) then 1 else 2
    {
      hide IsHighest, OwnClasses, GenInv, OnlyPushes, OnceAmong, TableOk, Copies, KeepsCopies, Wanted, Spare;
      InvBounds(classes.representatives, lo, bound, done, targetStack, Now());
      ghost var before := Now();
      if a == b {
        var _ :- AppendDup(from);
        ghost var once := classPositions;
        r := AppendDup(stackHeight);
        if r.Success? {
          KeepsTransitive(before.positions, once, classPositions);
          SpareTwice(neededBy, finalClasses, classPositions, result, a);
        }
        return;
      }
      var first, removable := Locate(a, result);
      if removable {
        r := CopyBehind(a, b, first);
      } else {
        var _ :- AppendDup(from);
        ghost var g := Now();
        CopiesKept(before.positions, classPositions, a);
        var h := ClassElementPosition(a);
        r := AppendDup(h.value);
        if r.Success? {
          KeepsTransitive(before.positions, g.positions, classPositions);
          CopiesKept(g.positions, classPositions, b);
        }
      }
      if r.Success? {
        CopiesKept(before.positions, classPositions, a);
        SpareCopied(neededBy, finalClasses, before.positions, classPositions, result, a, b);
      }
    }

    /** Moves the first argument to the top and puts a copy of the second one behind it. */
    method CopyBehind(a: Id, b: Id, first: int) returns (r: Result<()>)
      requires Inv() && HoldsAt(stack, first, a) && bound <= first <= stackHeight && a != b && Copies(classPositions, b) > 0
      modifies `generatedItems, `stackHeight, `stack, `classPositions
      ensures r.Success? ==> Inv() && bound <= stackHeight - 1 && KeepsCopies(old(classPositions), classPositions)
      ensures r.Success? ==> HoldsAt(stack, stackHeight, a) && HoldsAt(stack, stackHeight - 1, b)
      ensures r.Success? ==> Copies(classPositions, b) > Copies(old(classPositions), b)
      ensures r.Failure? ==> r.error == StackTooDeep && old(stackHeight) - lo >= 16
      ensures r.Success? ==> stackHeight == old(stackHeight) + 1
    {
      hide IsHighest, OwnClasses, GenInv, OnlyPushes, OnceAmong, TableOk, Copies, KeepsCopies;
      InvBounds(classes.representatives, lo, bound, done, targetStack, Now());
      ghost var before := Now();
      var _ :- AppendOrRemoveSwap(first);
      MovedToTop(before.stack, stack, before.height, first, a);
      CopiesKept(before.positions, classPositions, b);
      ghost var g := Now();
      var h := ClassElementPosition(b);
      var _ :- AppendDup(h.value);
      CopiesKept(g.positions, classPositions, b);
      KeepsTransitive(before.positions, g.positions, classPositions);
      ghost var g2 := Now();
      r := AppendOrRemoveSwap(stackHeight - 1);
      MovedToTop(g2.stack, stack, g2.height, stackHeight - 1, a);
      MovedFromTop(g2.stack, stack, g2.height, stackHeight - 1, b);
      CopiesKept(g2.positions, classPositions, b);
      KeepsTransitive(before.positions, g2.positions, classPositions);
    }

    // ----- the dependency graph -----

    ghost predicate DependenciesOk()
      reads this, classes
    {
      && classes.Valid() && Chronological(classes.representatives, lastSeqNr)
      && Grouped(storeOperations, stores) && StoresOf(classes.representatives, stores)
      && NeededOk(classes.representatives, neededBy, classPositions.Keys)
      && PairsOk(classes.representatives, neededBy, classPositions.Keys)
      && Tidy(classes.representatives, classes.expressions)
      && InputsAmong(classes.representatives, classPositions.Keys)
    }

    /** Records everything that is needed to compute the class. */
    method AddDependencies(c: Id, ghost roots: set<Id>)
      requires DependenciesOk() && c < |classes.representatives| && Grounded(neededBy, roots)
      modifies `neededBy, classes
      ensures
                && DependenciesOk() && PureGrowth(old(classes.representatives), classes.representatives)
                && NewComplete(classes.representatives, old(neededBy), neededBy, classPositions.Keys, None)
                && Complete(classes.representatives, neededBy, classPositions.Keys, c)
                && Grounded(neededBy, roots + {c})
      decreases c, 1
    {
      hide OwnClasses, Recorded, ArityOk, ArgsBelow, Chronological, Grouped, StoresOf, NoMemory, Complete, LoadDependencies, PairsOk, PairOk, Tidy, Grounded;
      ghost var reps0, needed0, present := classes.representatives, neededBy, classPositions.Keys;
      var e := classes.representatives[c];
      MoreRoots(neededBy, roots, roots + {c});
      PureGrowthOne(reps0, Expr(Push(0), [], 0));
      ValidTable(classes.representatives, classes.expressions, c);
      if c in classPositions {
        PresentComplete(reps0, neededBy, present, c);
        return;
      }
      if exists p | p in neededBy :: p.0 == c {
        return;
      }
      assert !e.item.UndefinedItem?;
      var i := 0;
      while i < |e.args|
        invariant 0 <= i <= |e.args| && DependenciesOk() && PureGrowth(reps0, classes.representatives)
        invariant NewComplete(classes.representatives, needed0, neededBy, present, Some(c))
        invariant (forall j | 0 <= j < i :: (e.args[j], c) in neededBy) && Grounded(neededBy, roots + {c})
      {
        ghost var reps1, needed1 := classes.representatives, neededBy;
        ValidTable(classes.representatives, classes.expressions, c);
        AddDependencies(e.args[i], roots + {c});
        PureGrowthTransitive(reps0, reps1, classes.representatives);
        NewGrows(reps1, classes.representatives, needed0, needed1, neededBy, present, Some(c));
        AddPair(classes.representatives, needed0, neededBy, present, e.args[i], c);
        ArgumentPair(classes.representatives, neededBy, present, i, c);
        GroundedAdd(neededBy, roots + {c}, e.args[i], c);
        neededBy := neededBy + {(e.args[i], c)};
        i := i + 1;
      }
      if IsLoadItem(e.item) {
        ghost var reps1, needed1 := classes.representatives, neededBy;
        AddStoreDependencies(c, roots + {c});
        PureGrowthTransitive(reps0, reps1, classes.representatives);
        NewGrows(reps1, classes.representatives, needed0, needed1, neededBy, present, Some(c));
      }
      NowComplete(classes.representatives, neededBy, present, c);
      Finished(classes.representatives, needed0, neededBy, present, c);
    }

    /** A load depends on the stores before it, unless they are known to go to other addresses. */
    method AddStoreDependencies(c: Id, ghost roots: set<Id>)
      requires DependenciesOk() && c < |classes.representatives| && IsLoadItem(classes.representatives[c].item)
      requires c !in classPositions && c in roots && Grounded(neededBy, roots)
      modifies `neededBy, classes
      ensures
                && DependenciesOk() && PureGrowth(old(classes.representatives), classes.representatives)
                && NewComplete(classes.representatives, old(neededBy), neededBy, classPositions.Keys, Some(c))
                && LoadDependencies(classes.representatives, neededBy, c) && Grounded(neededBy, roots)
      decreases c, 0
    {
      hide InputsAmong, OwnClasses, Recorded, ArityOk, ArgsBelow, Chronological, Grouped, StoresOf, NoMemory, Complete, LoadDependencies, Handled, PairsOk, Tidy, Grounded;
      ghost var reps0, needed0, present := classes.representatives, neededBy, classPositions.Keys;
      var e := classes.representatives[c];
      ValidTable(classes.representatives, classes.expressions, c);
      LoadHasOne(e);
      PureGrowthOne(reps0, Expr(Push(0), [], 0));
      var target := LoadTarget(e);
      var rest := storeOperations.Keys;
      while rest != {}
        invariant rest <= storeOperations.Keys && DependenciesOk() && PureGrowth(reps0, classes.representatives) && Grounded(neededBy, roots)
        invariant NewComplete(classes.representatives, needed0, neededBy, present, Some(c))
        invariant forall k | k in storeOperations && k !in rest && k.0 == target ::
                    Handled(classes.representatives, neededBy, c, k.1, storeOperations[k])
        decreases |rest|
      {
        var key :| key in rest;
        ghost var reps1, needed1 := classes.representatives, neededBy;
        if key.0 == target {
          AddGroupDependencies(c, key, roots);
          PureGrowthTransitive(reps0, reps1, classes.representatives);
          NewGrows(reps1, classes.representatives, needed0, needed1, neededBy, present, Some(c));
          forall k | k in storeOperations && k !in rest && k.0 == target
            ensures Handled(classes.representatives, neededBy, c, k.1, storeOperations[k])
          {
            HandledGrows(reps1, classes.representatives, needed1, neededBy, c, k.1, storeOperations[k]);
          }
        }
        rest := rest - {key};
      }
      HandledAll(classes.representatives, lastSeqNr, storeOperations, stores, neededBy, c);
    }

    /** The slots could not be told apart. */
    ghost predicate MayClash(c: Id, slot: Id)
      requires classes.Valid() && c < |classes.representatives| && |classes.representatives[c].args| == 1
      reads this, classes
    {
      var e := classes.representatives[c];
      if e.item == Operation(SLOAD) then TestedDifferent(classes.representatives, slot, e.args[0], false)
      else TestedApart(classes.representatives, slot, e.args[0], false)
    }

    /** The dependency of a load on the stores to one slot. */
    method AddGroupDependencies(c: Id, key: (Target, Id), ghost roots: set<Id>)
      requires c !in classPositions && c in roots && Grounded(neededBy, roots)
      requires DependenciesOk() && c < |classes.representatives| && IsLoadItem(classes.representatives[c].item)
      requires |classes.representatives[c].args| == 1
      requires key in storeOperations && key.0 == LoadTarget(classes.representatives[c])
      modifies `neededBy, classes
      ensures
                && DependenciesOk() && PureGrowth(old(classes.representatives), classes.representatives)
                && NewComplete(classes.representatives, old(neededBy), neededBy, classPositions.Keys, Some(c))
                && Handled(classes.representatives, neededBy, c, key.1, storeOperations[key]) && Grounded(neededBy, roots)
      ensures neededBy == old(neededBy) || (c < |classes.representatives| && |classes.representatives[c].args| == 1 && MayClash(c, key.1))
      decreases c, 0, 0
    {
      hide TestedDifferent, TestedApart, Found, InputsAmong, OwnClasses, Recorded, ArityOk, ArgsBelow, Chronological, Grouped, StoresOf, NoMemory, Complete, IsLatest, GroupOk, Independent, PairsOk, PairOk, Tidy, Grounded, IsValue;
      ghost var reps0, needed0, present := classes.representatives, neededBy, classPositions.Keys;
      ghost var known := classes.expressions;
      var e, group := classes.representatives[c], storeOperations[key];
      PureGrowthOne(reps0, Expr(Push(0), [], 0));
      GroupFacts(storeOperations, stores, key);
      NothingNew(reps0, neededBy, present, c);
      if group[0].seqNr > e.seqNr {
        return;
      }
      GroupSlot(reps0, stores, key, group);
      ValidTable(classes.representatives, classes.expressions, c);
      SlotValues(reps0, classes.expressions, stores, key, group, c);
      var independent: bool;
      if e.item.instr == SLOAD {
        independent := classes.KnownToBeDifferent(key.1, e.args[0]);
      } else {
        independent := classes.KnownToBeDifferentBy32(key.1, e.args[0]);
      }
      ghost var reps1 := classes.representatives;
      NoNewInputs(reps0, known, reps1, classes.expressions, present);
      KnownDependencies(reps0, reps1, lastSeqNr, stores, neededBy, present);
      PairsGrow(reps0, reps1, neededBy, present);
      NothingNew(reps1, neededBy, present, c);
      if independent {
        IndependentSlots(reps1, e, key.1);
        return;
      }
      LoadIsMemory(e);
      GroupStores(reps1, lastSeqNr, stores, key, group, c);
      var latest := LatestStore(group, e.seqNr);
      AddDependencies(latest.expression, roots);
      PureGrowthTransitive(reps0, reps1, classes.representatives);
      TableArity(classes.representatives, classes.expressions);
      TestsGrow(reps1, classes.representatives, key.1, e.args[0], false);
      NewGrows(reps1, classes.representatives, needed0, needed0, neededBy, present, Some(c));
      AddPair(classes.representatives, needed0, neededBy, present, latest.expression, c);
      StorePair(classes.representatives, stores, key, group, neededBy, present, latest, c);
      GroundedAdd(neededBy, roots, latest.expression, c);
      neededBy := neededBy + {(latest.expression, c)};
    }

    /** What has to hold before a load or store is generated. */
    ghost predicate Ready(c: Id)
      reads this, classes
      requires classes.Valid() && c < |classes.representatives|
    {
      var reps := classes.representatives;
      && (IsLoadItem(reps[c].item) ==> LoadReady(reps, c, done))
      && (IsStoreItem(reps[c].item) ==> forall i | i in done :: i < c)
    }

    /** Produces code that computes the class, unless it is on the stack already. What the original
        checks here is asked of the caller: the class is a store or load that has its turn, or a value
        that is still wanted. */
    method GenerateClassElement(c: Id, allowSequenced: bool) returns (r: Result<()>)
      requires Inv() && Planned() && Live() && c < |classes.representatives|
      requires Complete(classes.representatives, neededBy, present, c)
      requires if allowSequenced then Ready(c) && c !in classPositions else
                 IsValue(classes.representatives, c) && Wanted(neededBy, finalClasses, classPositions.Keys, c, None)
      requires InTurn(classes.representatives, neededBy, classPositions.Keys, if allowSequenced then c else c + 1)
      modifies `generatedItems, `stackHeight, `stack, `classPositions, `done
      ensures r.Success? ==>
                && Inv() && Live() && c in classPositions
                && NewUpTo(old(classPositions).Keys, classPositions.Keys, c)
                && done == (if c in old(classPositions) then old(done) else DoneAfter(classes.representatives, old(done), c))
                && (!allowSequenced ==> done == old(done))
      ensures r.Failure? ==> r.error == StackTooDeep && old(Peak()) >= 16
      ensures r.Success? ==> Peak() <= old(Peak())
      decreases c
    {
      hide NotYet, OwnClasses, GenInv, OnlyPushes, OnceAmong, LoadReady, WellFormed, Recorded, ArityOk, Chronological, Tidy, PairsOk, NeededOk, Complete, Wanted, IsValue, LiveAt, InTurn, KeepsCopies, Spare, LoadDependencies, Copies;
      var _ := RemoveStackTopIfPossible();
      if c in classPositions {
        return Success(());
      }
      TableArity(classes.representatives, classes.expressions);
      NotPresent(classes.representatives, neededBy, finalClasses, present, classPositions, c);
      if !allowSequenced {
        NotSequenced(classes.representatives, lastSeqNr, neededBy, present, classPositions.Keys, c);
        InTurnBefore(classes.representatives, neededBy, classPositions.Keys, classPositions.Keys, c + 1, c);
      }
      ClassFacts(classes.representatives, lastSeqNr, c);
      ghost var start := classPositions.Keys;
      var _ :- GenerateArguments(c);
      ghost var before := classPositions;
      OneLess(|classes.representatives|, classPositions.Keys, c);
      var _ :- Arrange(c);
      ghost var arranged := classPositions;
      ghost var ids := RemoveSwaps(c);
      KeepsTransitive(before, arranged, classPositions);
      CopiesKept(before, classPositions, c);
      LiveKept(classes.representatives, neededBy, finalClasses, present, before, classPositions);
      InTurnBefore(classes.representatives, neededBy, start, classPositions.Keys, c, c);
      Compute(c, ids);
      r := Success(());
    }

    /** Generates the arguments of a class, the last one first. */
    method GenerateArguments(c: Id) returns (r: Result<()>)
      requires Inv() && Planned() && Live() && c < |classes.representatives| && c !in classPositions
      requires Complete(classes.representatives, neededBy, present, c)
      requires InTurn(classes.representatives, neededBy, classPositions.Keys, c)
      modifies `generatedItems, `stackHeight, `stack, `classPositions, `done
      ensures r.Success? ==>
                && Inv() && Live() && done == old(done) && c !in classPositions
                && NewUpTo(old(classPositions).Keys, classPositions.Keys, c)
                && ArgumentsThere(classes.representatives, classPositions, c)
      ensures r.Failure? ==> r.error == StackTooDeep && old(Peak()) >= 16
      ensures r.Success? ==> Peak() <= old(Peak())
      decreases c, 0
    {
      hide NotYet, OwnClasses, GenInv, OnlyPushes, OnceAmong, LoadReady, TableOk, Chronological, Tidy, PairsOk, NeededOk, Complete, Wanted, IsValue, LiveAt, InTurn, Copies;
      var args := classes.representatives[c].args;
      var i := |args|;
      TableArity(classes.representatives, classes.expressions);
      while i > 0
        invariant 0 <= i <= |args| && Inv() && Live() && done == old(done) && c !in classPositions
        invariant NewUpTo(old(classPositions).Keys, classPositions.Keys, c)
        invariant Peak() <= old(Peak())
        invariant forall j | i <= j < |args| :: args[j] in classPositions
      {
        i := i - 1;
        LivePresent(classes.representatives, neededBy, finalClasses, present, classPositions);
        ArgumentWanted(classes.representatives, classes.expressions, neededBy, finalClasses, present, old(classPositions).Keys, classPositions, c, i);
        var _ :- GenerateClassElement(args[i], false);
      }
      ArgumentsAvailable(classes.representatives, classes.expressions, neededBy, finalClasses, present, classPositions, c);
      r := Success(());
    }

    /** Moves or copies the arguments of a class to the top of the stack. */
    method Arrange(c: Id) returns (r: Result<()>)
      requires Inv() && c < |classes.representatives| && ArgumentsThere(classes.representatives, classPositions, c)
      modifies `generatedItems, `stackHeight, `stack, `classPositions
      ensures r.Success? ==>
                && Inv() && KeepsCopies(old(classPositions), classPositions)
                && OnTop(Now(), classes.representatives[c].args)
                && Spare(neededBy, finalClasses, classPositions, c, classes.representatives[c].args)
                && bound <= stackHeight - |classes.representatives[c].args| + 1
      ensures r.Failure? ==> r.error == StackTooDeep && old(stackHeight) + 1 - lo >= 16
      ensures r.Success? ==> stackHeight <= old(stackHeight) + |classes.representatives[c].args|
    {
      hide OwnClasses, GenInv, OnlyPushes, OnceAmong, TableOk, Chronological, Copies, Wanted, Spare;
      var args := classes.representatives[c].args;
      r := Success(());
      NothingSpare(neededBy, finalClasses, classPositions, c);
      if |args| == 1 {
        assert args == [args[0]];
        r := ArrangeOne(args[0], c);
      } else if |args| == 2 {
        assert args == [args[0], args[1]];
        r := ArrangeTwo(args[0], args[1], c);
      }
      if r.Success? {
        InvBounds(classes.representatives, lo, bound, done, targetStack, Now());
      }
    }

    /** Commutative operations do not need a swap in front of them. */
    method RemoveSwaps(c: Id) returns (ghost ids: seq<Id>)
      requires Inv() && c < |classes.representatives|
      requires OnTop(Now(), classes.representatives[c].args) && |classes.representatives[c].args| <= 2
      requires Spare(neededBy, finalClasses, classPositions, c, classes.representatives[c].args)
      requires bound <= stackHeight - |classes.representatives[c].args| + 1
      modifies `generatedItems, `stackHeight, `stack, `classPositions
      ensures stackHeight == old(stackHeight)
      ensures Inv() && KeepsCopies(old(classPositions), classPositions)
      ensures |ids| == |classes.representatives[c].args| && ArgumentOrder(classes.representatives[c], ids) && OnTop(Now(), ids)
      ensures Spare(neededBy, finalClasses, classPositions, c, ids)
      ensures bound <= stackHeight - |ids| + 1
    {
      hide OwnClasses, GenInv, OnlyPushes, OnceAmong, TableOk, Chronological, IsCommutative, Spare, Copies, KeepsCopies;
      var e := classes.representatives[c];
      ids := e.args;
      KeepsSelf(classPositions);
      TableArity(classes.representatives, classes.expressions);
      CommutativeArity(e);
      while IsCommutativeItem(e.item) && EndsWith(generatedItems, SwapItem(1))
        invariant Inv() && KeepsCopies(old(classPositions), classPositions) && stackHeight == old(stackHeight)
        invariant |ids| == |e.args| && ArgumentOrder(e, ids) && OnTop(Now(), ids)
        invariant Spare(neededBy, finalClasses, classPositions, c, ids)
        decreases |generatedItems|
      {
        InvBounds(classes.representatives, lo, bound, done, targetStack, Now());
        ghost var before := Now();
        var swapped := AppendOrRemoveSwap(stackHeight - 1);
        assert HoldsAt(before.stack, stackHeight - 0, ids[0]) && HoldsAt(before.stack, stackHeight - 1, ids[1]);
        assert ids == [ids[0], ids[1]];
        SpareReversed(neededBy, finalClasses, before.positions, classPositions, c, ids[0], ids[1]);
        KeepsTransitive(old(classPositions), before.positions, classPositions);
        ids := [ids[1], ids[0]];
      }
    }

    /** Appends the item of the class; the arguments are taken from the stack. */
    method Compute(c: Id, ghost ids: seq<Id>)
      requires Inv() && Planned() && Live() && c < |classes.representatives| && Ready(c) && !classes.representatives[c].item.UndefinedItem?
      requires |ids| == |classes.representatives[c].args| && ArgumentOrder(classes.representatives[c], ids) && OnTop(Now(), ids)
      requires bound <= stackHeight - |ids| + 1 && c !in classPositions
      requires Spare(neededBy, finalClasses, classPositions, c, ids)
      requires InTurn(classes.representatives, neededBy, classPositions.Keys, c)
      requires forall j | 0 <= j < |classes.representatives[c].args| :: classes.representatives[c].args[j] in classPositions
      modifies `generatedItems, `stackHeight, `stack, `classPositions, `done
      ensures Inv() && Live() && classPositions.Keys == old(classPositions).Keys + {c}
      ensures done == DoneAfter(classes.representatives, old(done), c)
      ensures stackHeight <= old(stackHeight) - |classes.representatives[c].args| + 1
    {
      hide OwnClasses, GenInv, OnlyPushes, OnceAmong, LoadReady, TableOk, Chronological, ReturnValues, Arguments, ArgumentOrder, OnTop, Computable, Tidy, PairsOk, NeededOk, LiveAt, Spare, InTurn;
      ghost var g := Now();
      var e := classes.representatives[c];
      TableArity(classes.representatives, classes.expressions);
      ResultCount(classes.representatives, c);
      ComputableNow(classes.representatives, lo, bound, done, targetStack, g, c, ids);
      ApplyInv(classes.representatives, lo, bound, done, targetStack, g, c, ids);
      GenFacts(classes.representatives, lo, bound, done, targetStack, g);
      ComputedLive(classes.representatives, lo, lastSeqNr, neededBy, finalClasses, present, g, c, ids);
      Emit(c);
      done := DoneAfter(classes.representatives, done, c);
    }

    /** Takes the arguments off, appends the item of the class and puts the class on the stack. */
    method Emit(c: Id)
      requires Inv() && c < |classes.representatives| && c !in classPositions
      requires bound <= stackHeight - |classes.representatives[c].args| + 1 && ReturnValues(classes.representatives[c].item) <= 1
      requires Arguments(classes.representatives[c].item) == |classes.representatives[c].args|
      modifies `generatedItems, `stackHeight, `stack, `classPositions
      ensures Now() == Applied(old(Now()), c, classes.representatives[c].item, |classes.representatives[c].args|)
      ensures OnlyPushes(generatedItems, classes.pushed)
      ensures OnceAmong(classes.representatives, classPositions.Keys, generatedItems)
    {
      hide OwnClasses, GenInv, OnlyPushes, OnceAmong, TableOk, Chronological, ReturnValues, Arguments;
      ghost var g := Now();
      var e := classes.representatives[c];
      TakeArguments(|e.args|);
      assert MayPush(e.item, classes.pushed);
      PushesOneMore(generatedItems, e.item, classes.pushed);
      ItemComputes(classes.representatives, classes.expressions, c);
      ComputedOnce(classes.representatives, g.positions.Keys, generatedItems, c);
      AppendItem(e.item);
      if ReturnValues(e.item) == 1 {
        stack := stack[stackHeight := c];
        classPositions := WithPosition(classPositions, c, stackHeight);
      } else {
        classPositions := classPositions[c := {}];
      }
      assert classPositions.Keys == g.positions.Keys + {c};
      AppliedIs(g, Now(), c, e.item, |e.args|);
    }

    /** Removes the topmost classes from the bookkeeping, before the instruction that consumes them. */
    method TakeArguments(n: nat)
      requires Inv() && bound <= stackHeight - n + 1
      modifies `stack, `classPositions
      ensures stack == Reduced(old(Now()), n).stack && classPositions == Reduced(old(Now()), n).positions
      ensures classPositions.Keys == old(classPositions).Keys
    {
      hide OwnClasses, GenInv, OnlyPushes, OnceAmong, TableOk, Chronological, Reduced;
      ghost var g := Now();
      GenFacts(classes.representatives, lo, bound, done, targetStack, g);
      InvBounds(classes.representatives, lo, bound, done, targetStack, g);
      ReduceNone(classes.representatives, lo, g);
      var i := 0;
      while i < n
        invariant 0 <= i <= n && stack == Reduced(g, i).stack && classPositions == Reduced(g, i).positions
        invariant forall h | lo <= h <= stackHeight - i :: HoldsAt(stack, h, g.stack[h])
      {
        ReduceStep(classes.representatives, lo, g, i);
        classPositions := WithoutPosition(classPositions, stack[stackHeight - i], stackHeight - i);
        stack := stack - {stackHeight - i};
        i := i + 1;
      }
      ReducedKeys(g, n);
    }

    // ----- the complete generation -----

    /** Generates code that turns the initial stack into the target stack and performs the stores. The
        only error is a stack that is too deep: no element of the initial stack is missing, and none of
        the internal checks fails. */
    method GenerateCode(initialSequenceNumber: nat, initialStack: map<int, Id>, target: map<int, Id>, ghost low: int, ghost high: int, ghost seqNr: nat)
      returns (r: Result<seq<Item>>)
      requires classes.Valid() && Chronological(classes.representatives, seqNr)
      requires Tidy(classes.representatives, classes.expressions) && StackValues(classes.representatives, target)
      requires Grouped(storeOperations, stores) && StoresOf(classes.representatives, stores)
      requires generatedItems == [] && neededBy == {} && classPositions == map[] && finalClasses == {}
      requires Starts(classes.representatives, low, initialStack)
      requires InputsAmong(classes.representatives, ClassesOf(initialStack))
      requires Contiguous(target, low, high) && IdsBelow(target, |classes.representatives|)
      modifies this, classes
      ensures r.Success? ==>
                && classes.Valid() && PureGrowth(old(classes.representatives), classes.representatives)
                && Generated(classes.representatives, low, high, target, r.value)
                && OnlyPushes(r.value, classes.pushed)
                && EachOnce(classes.representatives, r.value) && LeavesOnce(r.value)
      ensures r.Failure? ==> r.error == StackTooDeep && (initialSequenceNumber > 1 || |classes.representatives| + |target| - low >= 16)
    {
      hide NotYet, InputsAmong, LeavesOnce, EachOnce, OwnClasses, Recorded, ArityOk, ArgsBelow, Chronological, Grouped, StoresOf, NoMemory, GenInv, OnlyPushes, OnceAmong, Collected, Starts, Generated, AllOverwritten, Tidy, PairsOk, NeededOk, LiveAt, AllComplete, Grounded, LastStores, InTurn, StackValues;
      ghost var reps0 := classes.representatives;
      Analyse(initialStack, target, low, seqNr);
      NotYetAtMost(|classes.representatives|, classPositions.Keys);
      var _ :- GenerateSequenced(initialSequenceNumber);
      var _ :- PlaceTargets(high);
      EverythingComputed(classes.representatives, lo, high, done, targetStack, Now(), neededBy, finalClasses, present, LastStores(storeOperations, storeOperations.Keys));
      RemoveSurplus();
      SurplusGone(high);
      var finalHeight := FinalHeight(initialStack, target, reps0, low, high);
      assert finalHeight == stackHeight;
      TableArity(classes.representatives, classes.expressions);
      AllGenerated(classes.representatives, low, high, done, target, Now());
      AmongIsOnce(classes.representatives, classPositions.Keys, generatedItems);
      LeavesComputedOnce(classes.representatives, classes.expressions, lastSeqNr, generatedItems);
      r := Success(generatedItems);
    }

    /** Enters the initial state and builds the dependency graph. */
    method Analyse(initialStack: map<int, Id>, target: map<int, Id>, ghost low: int, ghost seqNr: nat)
      requires classes.Valid() && Chronological(classes.representatives, seqNr)
      requires Tidy(classes.representatives, classes.expressions) && StackValues(classes.representatives, target)
      requires Grouped(storeOperations, stores) && StoresOf(classes.representatives, stores)
      requires generatedItems == [] && neededBy == {} && classPositions == map[] && finalClasses == {}
      requires Starts(classes.representatives, low, initialStack) && IdsBelow(target, |classes.representatives|)
      requires InputsAmong(classes.representatives, ClassesOf(initialStack))
      modifies this, classes
      ensures
                && Inv() && lo == bound == low && done == {} && targetStack == target && stackHeight == 0
                && Grouped(storeOperations, stores) && StoresOf(classes.representatives, stores)
                && Collected(classes.representatives, neededBy, classPositions.Keys, storeOperations)
                && PureGrowth(old(classes.representatives), classes.representatives)
                && (forall c | c in classPositions && c < |classes.representatives| :: !IsStoreItem(classes.representatives[c].item))
                && Planned() && Live() && present == classPositions.Keys
                && AllComplete(classes.representatives, neededBy, present, finalClasses) && OnlyTargets(targetStack, finalClasses)
                && StackValues(classes.representatives, targetStack)
                && Grounded(neededBy, LastStores(storeOperations, storeOperations.Keys) + finalClasses)
    {
      hide InputsAmong, OwnClasses, TableOk, TagsFrom, SizesRecorded, Chronological, Grouped, StoresOf, NoMemory, NeededOk, GenInv, OnlyPushes, OnceAmong, Collected, Starts, PositionsOk, IdsBelow, AreFinal, WellFormed, PureGrowth, Tidy, PairsOk, LiveAt, AllComplete, OnlyTargets, Grounded, LastStores, StackValues;
      ghost var reps0 := classes.representatives;
      PushesNothing(classes.pushed);
      Begin(initialStack, target, low, seqNr);
      BuildGraph();
      TableArity(classes.representatives, classes.expressions);
      StartInv(reps0, classes.representatives, low, target, Now());
      StartLive(classes.representatives, neededBy, finalClasses, classPositions);
      NothingComputed(classes.representatives, classPositions.Keys);
      ValuesStay(target, reps0, classes.representatives);
    }

    /** Enters the initial stack and the target stack. */
    method Begin(initialStack: map<int, Id>, target: map<int, Id>, ghost low: int, ghost seqNr: nat)
      requires classes.Valid() && Chronological(classes.representatives, seqNr) && Tidy(classes.representatives, classes.expressions)
      requires Grouped(storeOperations, stores) && StoresOf(classes.representatives, stores)
      requires neededBy == {} && classPositions == map[]
      requires InputsAmong(classes.representatives, ClassesOf(initialStack))
      modifies `lo, `bound, `done, `lastSeqNr, `stackHeight, `stack, `targetStack, `classPositions, `present
      ensures DependenciesOk() && lo == bound == low && done == {} && lastSeqNr == seqNr && stackHeight == 0
      ensures stack == initialStack && targetStack == target && present == classPositions.Keys
      ensures PositionsOk(stack, classPositions) && forall c | c in classPositions :: |classPositions[c]| > 0
    {
      hide InputsAmong, OwnClasses, TableOk, TagsFrom, SizesRecorded, Chronological, Grouped, StoresOf, NeededOk, PositionsOk, WellFormed, Tidy, PairsOk;
      TableArity(classes.representatives, classes.expressions);
      lo, bound, done, lastSeqNr := low, low, {}, seqNr;
      stackHeight, stack, targetStack := 0, initialStack, target;
      RecordPositions();
      InputsPositioned(classes.representatives, stack, classPositions);
      present := classPositions.Keys;
      NothingNeeded(classes.representatives, classPositions.Keys);
    }

    /** Builds the dependency graph for the last stores and the target stack. */
    method BuildGraph()
      requires DependenciesOk() && neededBy == {} && finalClasses == {} && IdsBelow(targetStack, |classes.representatives|)
      modifies `neededBy, `finalClasses, classes
      ensures
                && DependenciesOk() && PureGrowth(old(classes.representatives), classes.representatives)
                && Collected(classes.representatives, neededBy, classPositions.Keys, storeOperations)
                && AreFinal(targetStack, finalClasses) && OnlyTargets(targetStack, finalClasses)
                && AllComplete(classes.representatives, neededBy, classPositions.Keys, finalClasses)
                && Grounded(neededBy, LastStores(storeOperations, storeOperations.Keys) + finalClasses)
    {
      hide InputsAmong, OwnClasses, TableOk, TagsFrom, SizesRecorded, Chronological, Grouped, StoresOf, NoMemory, NeededOk, Collected, IdsBelow, AreFinal, OnlyTargets, WellFormed, PureGrowth, Tidy, PairsOk, AllComplete, Grounded, LastStores;
      ghost var reps0 := classes.representatives;
      CollectStores();
      ghost var reps1 := classes.representatives;
      IdsStayBelow(targetStack, reps0, reps1);
      CollectTargets();
      PureGrowthTransitive(reps0, reps1, classes.representatives);
    }

    method RemoveSurplus()
      requires Inv()
      modifies `generatedItems, `stackHeight, `stack, `classPositions
      ensures Inv() && !TopIsSurplus() && classPositions.Keys == old(classPositions).Keys
    {
      hide OwnClasses, TableOk, Chronological, GenInv, OnlyPushes, OnceAmong, TopIsSurplus;
      var removed := true;
      while removed
        invariant Inv() && classPositions.Keys == old(classPositions).Keys && (!removed ==> !TopIsSurplus())
        decreases if removed then 1 else 0, stackHeight - lo + 2
      {
        InvBounds(classes.representatives, lo, bound, done, targetStack, Now());
        removed := RemoveStackTopIfPossible();
        InvBounds(classes.representatives, lo, bound, done, targetStack, Now());
      }
    }

    /** When everything is computed and nothing on top can be removed, the stack has its final height. */
    lemma SurplusGone(high: int)
      requires Inv() && bound == high + 1 && Contiguous(targetStack, lo, high) && !TopIsSurplus()
      requires OnlyTargets(targetStack, finalClasses)
      requires forall p | p in neededBy :: p.1 in classPositions
      ensures stackHeight == high
    {
      hide OwnClasses, RunsTo, WellFormed, ValidInit, TableOk, IdsBelow, OnlyPushes;
      InvBounds(classes.representatives, lo, bound, done, targetStack, Now());
      GenFacts(classes.representatives, lo, bound, done, targetStack, Now());
      if stackHeight > high {
        var top := stack[stackHeight];
        assert IsPosition(classPositions, top, stackHeight);
        if top in finalClasses {
          var h := HeightOf(targetStack, finalClasses, top);
          assert HoldsAt(stack, h, top);
          assert IsPosition(classPositions, top, h);
          CardinalityUpTo({h, stackHeight}, classPositions[top]);
        }
      }
    }

    /** The height that the stack should have in the end. */
    method FinalHeight(initialStack: map<int, Id>, target: map<int, Id>, ghost reps: seq<Expr>, ghost low: int, ghost high: int) returns (h: int)
      requires Starts(reps, low, initialStack) && Contiguous(target, low, high)
      ensures h == high
    {
      hide Starts;
      h := 0;
      if |target.Keys| > 0 {
        h := MaxOf(target.Keys);
      } else if |initialStack.Keys| > 0 {
        h := MinOf(initialStack.Keys);
        h := h - 1;
      }
      FinalHeightIs(reps, low, high, initialStack, target, h);
    }

    /** Brings the target classes to their heights, from below. */
    method PlaceTargets(ghost high: int) returns (r: Result<()>)
      requires Inv() && Planned() && Live() && bound == lo && Contiguous(targetStack, lo, high) && StackValues(classes.representatives, targetStack)
      requires AllComplete(classes.representatives, neededBy, present, finalClasses)
      requires InTurn(classes.representatives, neededBy, classPositions.Keys, |classes.representatives|)
      modifies `generatedItems, `stackHeight, `stack, `classPositions, `done, `bound
      ensures r.Success? ==> Inv() && Live() && bound == high + 1 && done == old(done) && old(classPositions).Keys <= classPositions.Keys
      ensures r.Failure? ==> r.error == StackTooDeep && old(Peak()) + |targetStack| >= 16
    {
      hide NotYet, OwnClasses, TableOk, Chronological, GenInv, OnlyPushes, OnceAmong, Tidy, PairsOk, NeededOk, LiveAt, AllComplete, InTurn, StackValues;
      var rest := targetStack.Keys;
      while |rest| > 0
        invariant rest <= targetStack.Keys && Inv() && Live() && lo <= bound <= high + 1 && done == old(done)
        invariant old(classPositions).Keys <= classPositions.Keys
        invariant Peak() + |rest| <= old(Peak()) + |targetStack|
        invariant forall h | h in targetStack :: h in rest <==> bound <= h
        decreases |rest|
      {
        var h := MinOf(rest);
        assert lo <= bound <= high;
        assert bound in targetStack;
        TableArity(classes.representatives, classes.expressions);
        TargetReady(classes.representatives, neededBy, finalClasses, present, targetStack, old(classPositions).Keys, classPositions.Keys, h);
        var _ :- PlaceTarget(h);
        rest := rest - {h};
      }
      assert bound !in targetStack;
      r := Success(());
    }

    /** Brings one target class to its height; everything below is in place already. */
    method PlaceTarget(h: int) returns (r: Result<()>)
      requires Inv() && Planned() && Live() && h == bound && h in targetStack && IsValue(classes.representatives, targetStack[h])
      requires targetStack[h] in finalClasses && Complete(classes.representatives, neededBy, present, targetStack[h])
      requires InTurn(classes.representatives, neededBy, classPositions.Keys, targetStack[h] + 1)
      modifies `generatedItems, `stackHeight, `stack, `classPositions, `done, `bound
      ensures r.Success? ==> Inv() && Live() && bound == h + 1 && done == old(done) && old(classPositions).Keys <= classPositions.Keys
      ensures r.Failure? ==> r.error == StackTooDeep && old(Peak()) + 1 >= 16
      ensures r.Success? ==> Peak() <= old(Peak()) + 1
    {
      hide NotYet, OwnClasses, TableOk, Chronological, GenInv, OnlyPushes, OnceAmong, Tidy, PairsOk, NeededOk, LiveAt, InTurn, Complete, Copies, KeepsCopies;
      var c := targetStack[h];
      if h in stack && stack[h] == c {
        OnePlaced(classes.representatives, lo, h, done, targetStack, Now());
        bound := h + 1;
        return Success(());
      }
      var _ :- GenerateClassElement(c, false);
      FinalAvailable(classes.representatives, neededBy, finalClasses, present, classPositions, c);
      if h !in classPositions[c] {
        ghost var before := classPositions;
        var _ :- MoveTo(h, c);
        CopiesKept(before, classPositions, c);
        LiveKept(classes.representatives, neededBy, finalClasses, present, before, classPositions);
      } else {
        GenFacts(classes.representatives, lo, bound, done, targetStack, Now());
      }
      OnePlaced(classes.representatives, lo, h, done, targetStack, Now());
      bound := h + 1;
      r := Success(());
    }

    /** Moves or copies a class from another position to the height. */
    method MoveTo(h: int, c: Id) returns (r: Result<()>)
      requires Inv() && h == bound && Copies(classPositions, c) > 0
      modifies `generatedItems, `stackHeight, `stack, `classPositions
      ensures r.Success? ==> Inv() && HoldsAt(stack, h, c) && KeepsCopies(old(classPositions), classPositions)
      ensures r.Failure? ==> r.error == StackTooDeep && old(stackHeight) + 1 - lo >= 16
      ensures r.Success? ==> stackHeight <= old(stackHeight) + 1
    {
      hide OwnClasses, TableOk, Chronological, GenInv, OnlyPushes, OnceAmong, Copies, KeepsCopies;
      var at := ClassElementPosition(c);
      var position := at.value;
      InvBounds(classes.representatives, lo, bound, done, targetStack, Now());
      GenFacts(classes.representatives, lo, bound, done, targetStack, Now());
      ghost var before := Now();
      if position < h {
        var _ :- AppendDup(position);
      } else {
        var _ :- AppendOrRemoveSwap(position);
        MovedToTop(before.stack, stack, before.height, position, c);
      }
      ghost var moved := classPositions;
      r := SwapFromTop(h, c);
      if r.Success? {
        KeepsTransitive(before.positions, moved, classPositions);
      }
    }

    /** Swaps the topmost class to the height. */
    method SwapFromTop(h: int, ghost c: Id) returns (r: Result<()>)
      requires Inv() && h == bound && h <= stackHeight && HoldsAt(stack, stackHeight, c)
      modifies `generatedItems, `stackHeight, `stack, `classPositions
      ensures r.Success? ==> Inv() && HoldsAt(stack, h, c) && KeepsCopies(old(classPositions), classPositions)
      ensures r.Failure? ==> r.error == StackTooDeep && old(stackHeight) - lo >= 16
      ensures r.Success? ==> stackHeight == old(stackHeight)
    {
      hide OwnClasses, TableOk, Chronological, GenInv, OnlyPushes, OnceAmong, Copies, KeepsCopies;
      InvBounds(classes.representatives, lo, bound, done, targetStack, Now());
      ghost var before := Now();
      r := AppendOrRemoveSwap(h);
      if r.Success? {
        MovedFromTop(before.stack, stack, before.height, h, c);
      }
    }

    /** Builds the dependency graph from the last store to every slot. */
    method CollectStores()
      requires DependenciesOk() && neededBy == {}
      modifies `neededBy, classes
      ensures
                && DependenciesOk() && PureGrowth(old(classes.representatives), classes.representatives)
                && Collected(classes.representatives, neededBy, classPositions.Keys, storeOperations)
                && Grounded(neededBy, LastStores(storeOperations, storeOperations.Keys))
    {
      hide InputsAmong, OwnClasses, Recorded, ArityOk, ArgsBelow, Chronological, Grouped, StoresOf, NoMemory, Complete, NewComplete, LastComplete, NeededOk, PairsOk, Tidy, Grounded, LastStores;
      ghost var reps0, present := classes.representatives, classPositions.Keys;
      PureGrowthOne(reps0, Expr(Push(0), [], 0));
      NothingCollected(reps0, present, storeOperations);
      var rest := storeOperations.Keys;
      ghost var seen := {};
      NoLastStores(storeOperations);
      while rest != {}
        invariant rest <= storeOperations.Keys && seen == storeOperations.Keys - rest
        invariant DependenciesOk() && PureGrowth(reps0, classes.representatives)
        invariant Grounded(neededBy, LastStores(storeOperations, seen))
        invariant NewComplete(classes.representatives, {}, neededBy, present, None)
        invariant LastComplete(classes.representatives, neededBy, present, storeOperations, seen)
        decreases |rest|
      {
        var key :| key in rest;
        ghost var reps1, needed1 := classes.representatives, neededBy;
        GroupFacts(storeOperations, stores, key);
        GroupSlots(reps1, stores, key, storeOperations[key]);
        var last := Last(storeOperations[key]).expression;
        AddDependencies(last, LastStores(storeOperations, seen));
        OneMoreStore(storeOperations, seen, key);
        PureGrowthTransitive(reps0, reps1, classes.representatives);
        NewSubset(classes.representatives, needed1, neededBy, present, None);
        NewGrows(reps1, classes.representatives, {}, needed1, neededBy, present, None);
        LastGrows(reps1, classes.representatives, needed1, neededBy, present, storeOperations, seen, key);
        rest, seen := rest - {key}, seen + {key};
      }
      assert seen == storeOperations.Keys;
    }

    /** Adds what the target stack needs. */
    method CollectTargets()
      requires DependenciesOk() && finalClasses == {} && IdsBelow(targetStack, |classes.representatives|)
      requires Collected(classes.representatives, neededBy, classPositions.Keys, storeOperations)
      requires Grounded(neededBy, LastStores(storeOperations, storeOperations.Keys))
      modifies `neededBy, `finalClasses, classes
      ensures
                && DependenciesOk() && PureGrowth(old(classes.representatives), classes.representatives)
                && Collected(classes.representatives, neededBy, classPositions.Keys, storeOperations)
                && AreFinal(targetStack, finalClasses) && OnlyTargets(targetStack, finalClasses)
                && AllComplete(classes.representatives, neededBy, classPositions.Keys, finalClasses)
                && Grounded(neededBy, LastStores(storeOperations, storeOperations.Keys) + finalClasses)
    {
      hide InputsAmong, OwnClasses, Recorded, ArityOk, ArgsBelow, Chronological, Grouped, StoresOf, NoMemory, Complete, NewComplete, LastComplete, NeededOk, AllComplete, PairsOk, Tidy, Grounded, LastStores;
      ghost var reps0, present := classes.representatives, classPositions.Keys;
      PureGrowthOne(reps0, Expr(Push(0), [], 0));
      ghost var lastStores := LastStores(storeOperations, storeOperations.Keys);
      assert lastStores + {} == lastStores;
      NothingComplete(reps0, neededBy, present);
      var heights := targetStack.Keys;
      while |heights| > 0
        invariant heights <= targetStack.Keys && DependenciesOk() && PureGrowth(reps0, classes.representatives)
        invariant NewComplete(classes.representatives, {}, neededBy, present, None)
        invariant LastComplete(classes.representatives, neededBy, present, storeOperations, storeOperations.Keys)
        invariant forall h | h in targetStack && h !in heights :: targetStack[h] in finalClasses
        invariant OnlyTargets(targetStack, finalClasses) && AllComplete(classes.representatives, neededBy, present, finalClasses)
        invariant Grounded(neededBy, lastStores + finalClasses)
        decreases |heights|
      {
        NonEmpty(heights);
        var h :| h in heights;
        ghost var reps1, needed1 := classes.representatives, neededBy;
        ghost var final := finalClasses;
        finalClasses := finalClasses + {targetStack[h]};
        AddDependencies(targetStack[h], lastStores + final);
        assert lastStores + final + {targetStack[h]} == lastStores + finalClasses;
        PureGrowthTransitive(reps0, reps1, classes.representatives);
        NewSubset(classes.representatives, needed1, neededBy, present, None);
        NewGrows(reps1, classes.representatives, {}, needed1, neededBy, present, None);
        LastGrowsAll(reps1, classes.representatives, needed1, neededBy, present, storeOperations, storeOperations.Keys);
        assert HoldsAt(targetStack, h, targetStack[h]);
        OneMoreComplete(reps1, classes.representatives, needed1, neededBy, present, final, targetStack[h]);
        heights := heights - {h};
      }
    }

    /** Executes the needed loads and stores in the order of their sequence numbers. */
    method GenerateSequenced(initialSequenceNumber: nat) returns (r: Result<()>)
      requires Inv() && Planned() && Live() && present == classPositions.Keys
      requires done == {} && Grouped(storeOperations, stores) && StoresOf(classes.representatives, stores)
      requires Collected(classes.representatives, neededBy, classPositions.Keys, storeOperations)
      requires forall c | c in classPositions && c < |classes.representatives| :: !IsStoreItem(classes.representatives[c].item)
      modifies `generatedItems, `stackHeight, `stack, `classPositions, `done
      ensures r.Success? ==> Inv() && Live() && AllOverwritten(classes.representatives, done)
      ensures r.Success? ==> InTurn(classes.representatives, neededBy, classPositions.Keys, |classes.representatives|)
      ensures r.Success? ==> LastStores(storeOperations, storeOperations.Keys) <= classPositions.Keys
      ensures r.Failure? ==> r.error == StackTooDeep && (initialSequenceNumber > 1 || old(Peak()) >= 16)
      ensures r.Success? ==> Peak() <= old(Peak())
    {
      hide NotYet, OwnClasses, Recorded, ArityOk, ArgsBelow, Chronological, Grouped, StoresOf, Collected, GenInv, OnlyPushes, OnceAmong, LoadReady, IsSequenced, AllOverwritten, InProgress, Tidy, PairsOk, NeededOk, LiveAt, InTurn, Complete, LastStores, NewUpTo;
      ghost var reps, started := classes.representatives, classPositions.Keys;
      InvolvedIds(reps, neededBy, started, storeOperations);
      var sequenced := SequencedClasses();
      TableArity(reps, classes.expressions);
      SequencedPositive(reps, lastSeqNr, sequenced);
      if exists id | id in sequenced :: classes.representatives[id].seqNr < initialSequenceNumber {
        return Failure(StackTooDeep);
      }
      var rest := sequenced;
      NoProgress(reps, sequenced);
      while rest != {}
        invariant rest <= sequenced && Inv() && Live() && Peak() <= old(Peak())
        invariant started <= classPositions.Keys && forall x | x in sequenced && x !in rest :: x in classPositions
        invariant InProgress(reps, sequenced, rest, done)
        decreases |rest|
      {
        var id := FirstSequenced(rest);
        ghost var before, computed := done, classPositions.Keys;
        if id !in classPositions {
          SequencedReady(reps, lastSeqNr, neededBy, started, storeOperations, sequenced, rest, done, id);
          InvolvedComplete(reps, neededBy, started, storeOperations, sequenced, id);
          SequencedInTurn(reps, neededBy, sequenced, classPositions.Keys, id);
          var _ :- GenerateClassElement(id, true);
          MoreComputed(computed, classPositions.Keys, id);
        } else {
          StoredAlready(reps, lo, bound, done, targetStack, Now(), id);
        }
        ProgressStep(reps, sequenced, rest, before, done, id);
        rest := rest - {id};
      }
      LastStoresDone(reps, lastSeqNr, neededBy, started, storeOperations, stores, sequenced, done);
      LastStoresComputed(reps, lastSeqNr, neededBy, started, storeOperations, stores, sequenced, classPositions.Keys);
      SequencedInTurn(reps, neededBy, sequenced, classPositions.Keys, |reps|);
      r := Success(());
    }

    /** All needed classes that are loads or stores. */
    method SequencedClasses() returns (s: set<Id>)
      requires forall p | p in neededBy :: p.0 < |classes.representatives| && p.1 < |classes.representatives|
      ensures IsSequenced(classes.representatives, neededBy, s)
      ensures forall id | id in s :: id < |classes.representatives| && classes.representatives[id].seqNr != 0
    {
      s := set p, id | p in neededBy && id in {p.0, p.1} && classes.representatives[id].seqNr != 0 :: id;
    }

    /** The class with the least sequence number; of several, the one with the least class number. */
    method FirstSequenced(s: set<Id>) returns (id: Id)
      requires classes.Valid() && Chronological(classes.representatives, lastSeqNr) && s != {}
      requires forall x | x in s :: x < |classes.representatives| && classes.representatives[x].seqNr != 0
      ensures id in s && forall x | x in s :: id <= x
    {
      hide OwnClasses, TableOk, Chronological;
      id :| id in s;
      var rest := s;
      while rest != {}
        invariant id in s && rest <= s && forall x | x in s && x !in rest :: Precedes(classes.representatives, id, x)
        decreases |rest|
      {
        var x :| x in rest;
        if !Precedes(classes.representatives, id, x) {
          id := x;
        }
        rest := rest - {x};
      }
      SequenceOrder(classes.representatives, lastSeqNr, id, s);
    }

    /** Enters the positions of the initial stack. */
    method RecordPositions()
      requires classPositions == map[]
      modifies `classPositions
      ensures PositionsOk(stack, classPositions) && forall c | c in classPositions :: |classPositions[c]| > 0
    {
      var rest := stack.Keys;
      while |rest| > 0
        invariant rest <= stack.Keys
        invariant forall h | h in stack && h !in rest :: IsPosition(classPositions, stack[h], h)
        invariant forall c | c in classPositions :: forall h | h in classPositions[c] :: HoldsAt(stack, h, c)
        invariant forall c | c in classPositions :: |classPositions[c]| > 0
        decreases |rest|
      {
        NonEmpty(rest);
        var h :| h in rest;
        classPositions := WithPosition(classPositions, stack[h], h);
        rest := rest - {h};
      }
    }
  }

  /** The initial stack layout describes the top of every initial stack; none of its classes is a store. */
  ghost predicate Starts(reps: seq<Expr>, lo: int, initial: map<int, Id>) {
    && WellFormed(reps)
    && Contiguous(initial, lo, 0) && IdsBelow(initial, |reps|)
    && (forall h | h in initial :: !IsStoreItem(reps[initial[h]].item))
    && forall init | ValidInit(init) && Deep(init, lo) :: StackAgrees(Nu(init, reps), init.stack, 0, initial, init.stack)
  }

  /** The items turn every initial state into the target stack and the world after all stores. */
  ghost predicate Generated(reps: seq<Expr>, lo: int, height: int, target: map<int, Id>, items: seq<Item>) {
    && WellFormed(reps) && IdsBelow(target, |reps|) && Rewriting.NoTags(items) && NoFreeGas(items)
    && forall init | ValidInit(init) && Deep(init, lo) :: GeneratedAt(init, reps, height, target, items)
  }

  ghost predicate GeneratedAt(init: Init, reps: seq<Expr>, height: int, target: map<int, Id>, items: seq<Item>)
    requires WellFormed(reps) && IdsBelow(target, |reps|)
  {
    var r := Exec(init.env, items, init.stack, init.world);
    r.Next? && r.world == WorldOf(init, reps) && StackAgrees(Nu(init, reps), init.stack, height, target, r.stack)
  }

  lemma ReduceNone(reps: seq<Expr>, lo: int, g: Gen)
    requires ShapeOk(reps, lo, g)
    ensures Reduced(g, 0).stack == g.stack && Reduced(g, 0).positions == g.positions
  {
    hide WellFormed, IdsBelow;
    forall c | c in g.positions
      ensures PositionsUpTo(g.positions[c], g.height) == g.positions[c]
    {
      assert forall h | h in g.positions[c] :: HoldsAt(g.stack, h, c);
    }
  }

  lemma ReducedKeys(g: Gen, n: nat)
    ensures Reduced(g, n).positions.Keys == g.positions.Keys
  {
  }

  lemma AppliedIs(g: Gen, g': Gen, c: Id, item: Item, n: nat)
    requires g'.items == g.items + [item] && g'.height == g.height - n + ReturnValues(item) && ReturnValues(item) <= 1
    requires var rest := Reduced(g, n);
             if ReturnValues(item) == 1 then
               g'.stack == rest.stack[g'.height := c] && g'.positions == WithPosition(rest.positions, c, g'.height)
             else
               g'.stack == rest.stack && g'.positions == rest.positions[c := if c in rest.positions then rest.positions[c] else {}]
    ensures g' == Applied(g, c, item, n)
  {
    hide ReturnValues, Truncate, PositionsUpTo;
  }

  lemma CommutativeArity(e: Expr)
    requires ArityOk(e)
    ensures IsCommutativeItem(e.item) ==> |e.args| == 2
  {
  }

  lemma ClassFacts(reps: seq<Expr>, seqNr: nat, c: Id)
    requires WellFormed(reps) && Chronological(reps, seqNr) && c < |reps|
    ensures forall i | 0 <= i < |reps[c].args| :: reps[c].args[i] < c
    ensures reps[c].seqNr == 0 ==> !IsMemoryItem(reps[c].item)
    ensures IsLoadItem(reps[c].item) || IsStoreItem(reps[c].item) ==> IsMemoryItem(reps[c].item)
  {
    assert ArgsBelow(reps[c], c);
    assert Sequenced(reps[c], seqNr);
  }

  lemma TableArity(reps: seq<Expr>, expressions: map<Expr, Id>)
    requires TableOk(reps, expressions)
    ensures AllArityOk(reps) && WellFormed(reps)
  {
    hide OwnClasses, ArityOk, Recorded;
  }

  /** Loads and stores are numbered from one. */
  lemma SequencedPositive(reps: seq<Expr>, seqNr: nat, ids: set<Id>)
    requires Chronological(reps, seqNr) && forall id | id in ids :: id < |reps| && reps[id].seqNr != 0
    ensures forall id | id in ids :: reps[id].seqNr >= 1
  {
  }

  lemma ItemComputes(reps: seq<Expr>, expressions: map<Expr, Id>, c: Id)
    requires TableOk(reps, expressions) && c < |reps|
    ensures !IsArranging(reps[c].item)
  {
    hide Recorded, IsExpressible, IsArranging;
    assert ArityOk(reps[c]);
    ExpressibleComputes(reps[c].item);
  }

  lemma ComputableNow(reps: seq<Expr>, lo: int, b: int, done: set<Id>, target: map<int, Id>, g: Gen, c: Id, ids: seq<Id>)
    requires GenInv(reps, lo, b, done, target, g) && AllArityOk(reps) && c < |reps| && !reps[c].item.UndefinedItem?
    requires ArgumentOrder(reps[c], ids) && OnTop(g, ids) && b <= g.height - |ids| + 1
    requires IsLoadItem(reps[c].item) ==> LoadReady(reps, c, done)
    requires IsStoreItem(reps[c].item) ==> forall i | i in done :: i < c
    ensures Computable(reps, lo, done, g, c, ids)
    ensures Arguments(reps[c].item) == |reps[c].args|
  {
    hide RunsTo, ValidInit, WellFormed, PositionsOk, ArgumentOrder, OnTop, LoadReady, IsPure;
    assert ArityOk(reps[c]);
  }

  /** Taking one more element off. */
  lemma ReduceStep(reps: seq<Expr>, lo: int, g: Gen, i: nat)
    requires ShapeOk(reps, lo, g) && g.height - i in g.stack
    ensures g.height - i in Reduced(g, i).stack
    ensures Reduced(g, i + 1).stack == Reduced(g, i).stack - {g.height - i}
    ensures Reduced(g, i + 1).positions == WithoutPosition(Reduced(g, i).positions, g.stack[g.height - i], g.height - i)
  {
    hide WellFormed, IdsBelow, Contiguous;
    var h := g.height - i;
    var c := g.stack[h];
    assert IsPosition(g.positions, c, h);
    var before, after := Reduced(g, i).positions, Reduced(g, i + 1).positions;
    var erased := WithoutPosition(before, c, h);
    forall d | d in after
      ensures d in erased && after[d] == erased[d]
    {
      if d == c {
        assert after[d] == before[d] - {h};
      } else {
        assert forall p | p in g.positions[d] :: HoldsAt(g.stack, p, d);
        assert after[d] == before[d];
      }
    }
  }

  lemma InvBounds(reps: seq<Expr>, lo: int, b: int, done: set<Id>, target: map<int, Id>, g: Gen)
    requires GenInv(reps, lo, b, done, target, g)
    ensures lo <= b <= g.height + 1
    ensures forall h | lo <= h <= g.height :: h in g.stack
    ensures forall h | h in g.stack :: lo <= h <= g.height
  {
    hide RunsTo, WellFormed, ValidInit, IdsBelow, PositionsOk;
  }

  lemma MovedToTop(before: map<int, Id>, after: map<int, Id>, height: int, from: int, c: Id)
    requires HoldsAt(before, from, c) && height in before
    requires from == height ==> after == before
    requires from < height ==> after == Exchanged(before, height, from)
    requires from <= height
    ensures HoldsAt(after, height, c)
  {
  }

  lemma MovedFromTop(before: map<int, Id>, after: map<int, Id>, height: int, to: int, c: Id)
    requires HoldsAt(before, height, c) && to in before
    requires to == height ==> after == before
    requires to < height ==> after == Exchanged(before, height, to)
    requires to <= height
    ensures HoldsAt(after, to, c)
  {
  }

  /** Swapping the two topmost elements moves a lower one up at most. */
  lemma StillThere(reps: seq<Expr>, lo: int, before: map<int, Id>, g: Gen, from: int, c: Id, h: int)
    requires ShapeOk(reps, lo, g) && HoldsAt(before, from, c) && from < g.height
    requires g.height in before && g.height - 1 in before && g.stack == Exchanged(before, g.height, g.height - 1)
    requires c in g.positions && forall p | p in g.positions[c] :: p <= h
    ensures from <= h
  {
    hide WellFormed, IdsBelow, Contiguous;
    if from == g.height - 1 {
      assert IsPosition(g.positions, g.stack[g.height], g.height);
    } else {
      assert IsPosition(g.positions, g.stack[from], from);
    }
  }

  lemma MoveDeposits(n: nat)
    requires 1 <= n <= 16
    ensures Deposit(DupItem(n)) == 1 && Deposit(SwapItem(n)) == 0 && Deposit(Operation(POP)) == -1
  {
  }

  predicate EndsWith(items: seq<Item>, item: Item) {
    |items| > 0 && items[|items| - 1] == item
  }

  /** A swap in front of an equal one cancels out. */
  function WithSwap(items: seq<Item>, swap: Item): seq<Item> {
    if EndsWith(items, swap) then items[..|items| - 1] else items + [swap]
  }

  lemma SwapFacts(reps: seq<Expr>, lo: int, b: int, done: set<Id>, target: map<int, Id>, g: Gen, from: int)
    requires GenInv(reps, lo, b, done, target, g) && g.height in g.stack && from in g.stack
    ensures IsPosition(g.positions, g.stack[g.height], g.height) && IsPosition(g.positions, g.stack[from], from)
    ensures Turned(g, from).positions.Keys == g.positions.Keys
  {
    hide GenOk;
    GenFacts(reps, lo, b, done, target, g);
    assert IsPosition(g.positions, g.stack[g.height], g.height) && IsPosition(g.positions, g.stack[from], from);
  }

  lemma TopInStack(reps: seq<Expr>, lo: int, g: Gen)
    requires ShapeOk(reps, lo, g)
    ensures g.stack == map[] || g.height in g.stack
    ensures g.height in g.stack ==> IsPosition(g.positions, g.stack[g.height], g.height)
  {
    hide WellFormed, IdsBelow;
    if g.height < lo {
      assert forall h :: h !in g.stack;
      assert g.stack == map[];
    } else {
      assert g.height in g.stack;
    }
  }
}
