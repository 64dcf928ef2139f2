/** What regenerated code computes: every class at most once. This is what the elimination of common
    subexpressions (libevmasm/CommonSubexpressionEliminator.cpp) is for. */
module ComputingOnce {
  import opened Instructions
  import opened Items
  import opened Rules
  import opened Semantics
  import opened Knowing
  import opened Classes

  /** Items that only rearrange the stack. */
  predicate IsArranging(item: Item) {
    item.Operation? && (IsDup(item.instr) || IsSwap(item.instr) || item.instr == POP)
  }

  /** The other items. */
  function Computing(items: seq<Item>): seq<Item> {
    if items == [] then []
    else
      var last := items[|items| - 1];
      Computing(items[..|items| - 1]) + if IsArranging(last) then [] else [last]
  }

  predicate AllDiffer(ids: seq<Id>) {
    forall i, j | 0 <= i < j < |ids| :: ids[i] != ids[j]
  }

  /** The computing items are those of the given classes, which are all different. */
  predicate Computes(reps: seq<Expr>, ids: seq<Id>, items: seq<Item>) {
    && AllDiffer(ids) && |ids| == |Computing(items)|
    && forall i | 0 <= i < |ids| :: ids[i] < |reps| && reps[ids[i]].item == Computing(items)[i]
  }

  /** Every item that computes something belongs to a class of its own. */
  ghost predicate EachOnce(reps: seq<Expr>, items: seq<Item>) {
    exists ids :: Computes(reps, ids, items)
  }

  /** The same, for classes among the given ones. */
  ghost predicate OnceAmong(reps: seq<Expr>, keys: set<Id>, items: seq<Item>) {
    exists ids :: Computes(reps, ids, items) && forall id | id in ids :: id in keys
  }

  lemma NothingComputed(reps: seq<Expr>, keys: set<Id>)
    ensures OnceAmong(reps, keys, [])
  {
    assert Computes(reps, [], []);
  }

  lemma ComputingOne(items: seq<Item>, item: Item)
    ensures Computing(items + [item]) == Computing(items) + if IsArranging(item) then [] else [item]
  {
    hide IsArranging;
    assert (items + [item])[..|items|] == items;
  }

  lemma ArrangedOnce(reps: seq<Expr>, keys: set<Id>, items: seq<Item>, item: Item)
    requires OnceAmong(reps, keys, items) && IsArranging(item)
    ensures OnceAmong(reps, keys, items + [item])
  {
    hide Computing, IsArranging;
    ComputingOne(items, item);
    var ids :| Computes(reps, ids, items) && forall id | id in ids :: id in keys;
    assert Computes(reps, ids, items + [item]);
  }

  lemma CancelledOnce(reps: seq<Expr>, keys: set<Id>, items: seq<Item>)
    requires OnceAmong(reps, keys, items) && |items| >= 2
    requires IsArranging(items[|items| - 1]) && IsArranging(items[|items| - 2])
    ensures OnceAmong(reps, keys, items[..|items| - 2])
  {
    hide Computing, IsArranging;
    var n := |items|;
    assert items == items[..n - 1] + [items[n - 1]] && items[..n - 1] == items[..n - 2] + [items[n - 2]];
    ComputingOne(items[..n - 1], items[n - 1]);
    ComputingOne(items[..n - 2], items[n - 2]);
    var ids :| Computes(reps, ids, items) && forall id | id in ids :: id in keys;
    assert Computes(reps, ids, items[..n - 2]);
  }

  lemma ComputedOnce(reps: seq<Expr>, keys: set<Id>, items: seq<Item>, c: Id)
    requires OnceAmong(reps, keys, items) && c !in keys && c < |reps| && !IsArranging(reps[c].item)
    ensures OnceAmong(reps, keys + {c}, items + [reps[c].item])
  {
    hide Computing, IsArranging;
    ComputingOne(items, reps[c].item);
    var ids :| Computes(reps, ids, items) && forall id | id in ids :: id in keys;
    var more := ids + [c];
    assert Computes(reps, more, items + [reps[c].item]);
    assert forall id | id in more :: id in keys + {c};
  }

  lemma AmongIsOnce(reps: seq<Expr>, keys: set<Id>, items: seq<Item>)
    requires OnceAmong(reps, keys, items)
    ensures EachOnce(reps, items)
  {
    hide Computes;
  }

  /** What can be looked up computes something. */
  lemma ExpressibleComputes(item: Item)
    requires IsExpressible(item)
    ensures !IsArranging(item)
  {
  }

  // ----- constants and the like -----

  /** Items without arguments that always give the same value. */
  predicate IsLeaf(item: Item) {
    !IsArranging(item) && Deterministic(item) && Arguments(item) == 0
  }

  predicate LeavesOnce(items: seq<Item>) {
    forall x | x in items && IsLeaf(x) :: multiset(items)[x] <= 1
  }

  lemma {:induction false} ComputingCount(items: seq<Item>, x: Item)
    requires !IsArranging(x)
    ensures multiset(Computing(items))[x] == multiset(items)[x]
  {
    hide IsArranging;
    if items != [] {
      ComputingCount(items[..|items| - 1], x);
      assert items == items[..|items| - 1] + [items[|items| - 1]];
    }
  }

  lemma {:induction false} CountOne(s: seq<Item>, x: Item)
    requires forall i, j | 0 <= i < j < |s| :: !(s[i] == x && s[j] == x)
    ensures multiset(s)[x] <= 1
  {
    if s != [] {
      var front := s[..|s| - 1];
      CountOne(front, x);
      assert s == front + [s[|s| - 1]];
      if s[|s| - 1] == x {
        assert x !in front;
      }
    }
  }

  /** Code that computes every class once contains no constant twice, and nothing else that only depends
      on the surroundings of the call. */
  lemma LeavesComputedOnce(reps: seq<Expr>, expressions: map<Expr, Id>, seqNr: nat, items: seq<Item>)
    requires EachOnce(reps, items) && OwnClasses(reps, expressions) && Chronological(reps, seqNr)
    requires forall i | 0 <= i < |reps| :: ArityOk(reps[i])
    ensures LeavesOnce(items)
  {
    hide Computing, IsArranging, Deterministic, Arguments, IsExpressible, InOrder;
    var ids :| Computes(reps, ids, items);
    forall x | x in items && IsLeaf(x)
      ensures multiset(items)[x] <= 1
    {
      var s := Computing(items);
      forall i | 0 <= i < |s| && s[i] == x
        ensures reps[ids[i]] == Expr(x, [], 0)
      {
        LeafExpression(reps, seqNr, ids[i], x);
      }
      forall i, j | 0 <= i < j < |s|
        ensures !(s[i] == x && s[j] == x)
      {
        ClassesDiffer(reps, expressions, ids[i], ids[j]);
      }
      CountOne(s, x);
      ComputingCount(items, x);
    }
  }

  lemma LeafExpression(reps: seq<Expr>, seqNr: nat, id: Id, x: Item)
    requires Chronological(reps, seqNr) && id < |reps| && reps[id].item == x && IsLeaf(x) && ArityOk(reps[id])
    ensures reps[id] == Expr(x, [], 0)
  {
    hide IsExpressible, InOrder;
    assert Sequenced(reps[id], seqNr);
  }
}
