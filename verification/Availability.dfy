/** What the code generator has to keep on the stack. Every class that is still needed is available
    until it has been used for the last time, so that none of the internal checks of the generator
    can fail (libevmasm/CommonSubexpressionEliminator.cpp:122-509). */
module Availability {
  import opened Wrappers
  import opened Items
  import opened Rules
  import opened Semantics
  import opened Knowing
  import opened Generating

  // ----- what is needed -----

  /** The first class is an argument of the second one, or a store before a load; the second one is
      not on the stack from the start. */
  predicate PairOk(reps: seq<Expr>, present: set<Id>, p: (Id, Id)) {
    && p.0 < p.1 < |reps| && p.1 !in present
    && (p.0 in reps[p.1].args || (IsLoadItem(reps[p.1].item) && IsStoreItem(reps[p.0].item)))
  }

  predicate PairsOk(reps: seq<Expr>, needed: set<(Id, Id)>, present: set<Id>) {
    forall p | p in needed :: PairOk(reps, present, p)
  }

  lemma PairsGrow(reps: seq<Expr>, bigger: seq<Expr>, needed: set<(Id, Id)>, present: set<Id>)
    requires reps <= bigger && PairsOk(reps, needed, present)
    ensures PairsOk(bigger, needed, present)
  {
    hide IsLoadItem, IsStoreItem;
    forall p | p in needed
      ensures PairOk(bigger, present, p)
    {
      assert PairOk(reps, present, p);
    }
  }

  lemma OneMorePair(reps: seq<Expr>, needed: set<(Id, Id)>, present: set<Id>, a: Id, c: Id)
    requires PairsOk(reps, needed, present) && PairOk(reps, present, (a, c))
    ensures PairsOk(reps, needed + {(a, c)}, present)
  {
    hide PairOk;
  }

  predicate Leads(needed: set<(Id, Id)>, c: Id) {
    exists q :: q in needed && q.0 == c
  }

  /** Whatever is computed is a root or needed by something else. */
  predicate Grounded(needed: set<(Id, Id)>, roots: set<Id>) {
    forall p | p in needed :: p.1 in roots || Leads(needed, p.1)
  }

  lemma MoreRoots(needed: set<(Id, Id)>, roots: set<Id>, more: set<Id>)
    requires Grounded(needed, roots) && roots <= more
    ensures Grounded(needed, more)
  {
    hide Leads;
  }

  lemma GroundedAdd(needed: set<(Id, Id)>, roots: set<Id>, a: Id, c: Id)
    requires Grounded(needed, roots + {a}) && c in roots
    ensures Grounded(needed + {(a, c)}, roots)
  {
    var more := needed + {(a, c)};
    forall p | p in more
      ensures p.1 in roots || Leads(more, p.1)
    {
      if p.1 == a {
        assert (a, c) in more;
      } else if p in needed && p.1 !in roots {
        assert Leads(needed, p.1);
        var q :| q in needed && q.0 == p.1;
        assert q in more;
      }
    }
  }

  // ----- what is available -----

  function Copies(positions: map<Id, set<int>>, x: Id): nat {
    if x in positions then |positions[x]| else 0
  }

  /** Part of the target, or needed by a class that has not been computed (apart from the given one). */
  predicate Wanted(needed: set<(Id, Id)>, final: set<Id>, computed: set<Id>, x: Id, except: Option<Id>) {
    x in final || exists p :: p in needed && p.0 == x && p.1 !in computed && Some(p.1) != except
  }

  /** No value that is still wanted has been lost. */
  ghost predicate Available(reps: seq<Expr>, needed: set<(Id, Id)>, final: set<Id>, positions: map<Id, set<int>>) {
    forall x | x in positions && IsValue(reps, x) && Wanted(needed, final, positions.Keys, x, None) :: Copies(positions, x) > 0
  }

  /** What a computed class needed has been computed. */
  predicate Closed(needed: set<(Id, Id)>, computed: set<Id>) {
    forall p | p in needed && p.1 in computed :: p.0 in computed
  }

  predicate KeepsCopies(before: map<Id, set<int>>, after: map<Id, set<int>>) {
    before.Keys == after.Keys && forall x | x in before :: Copies(before, x) <= Copies(after, x)
  }

  lemma KeepsTransitive(a: map<Id, set<int>>, b: map<Id, set<int>>, c: map<Id, set<int>>)
    requires KeepsCopies(a, b) && KeepsCopies(b, c)
    ensures KeepsCopies(a, c)
  {
    hide Copies;
    forall x | x in a
      ensures Copies(a, x) <= Copies(c, x)
    {
      assert Copies(a, x) <= Copies(b, x);
    }
  }

  lemma KeptAvailable(reps: seq<Expr>, needed: set<(Id, Id)>, final: set<Id>, before: map<Id, set<int>>, after: map<Id, set<int>>)
    requires Available(reps, needed, final, before) && KeepsCopies(before, after)
    ensures Available(reps, needed, final, after)
  {
    hide Copies, Wanted, IsValue;
  }

  /** One copy less is all right if there are others, or if the class is not wanted any more. */
  lemma RemovedAvailable(reps: seq<Expr>, needed: set<(Id, Id)>, final: set<Id>, positions: map<Id, set<int>>, x: Id, h: int)
    requires Available(reps, needed, final, positions) && x in positions
    requires Wanted(needed, final, positions.Keys, x, None) ==> Copies(positions, x) > 1
    ensures Available(reps, needed, final, WithoutPosition(positions, x, h))
    ensures WithoutPosition(positions, x, h).Keys == positions.Keys
  {
    hide Wanted, IsValue;
    var after := WithoutPosition(positions, x, h);
    assert after.Keys == positions.Keys;
    assert positions[x] <= after[x] + {h};
    CardinalityUpTo(positions[x], after[x] + {h});
    forall y | y in after && IsValue(reps, y) && Wanted(needed, final, after.Keys, y, None)
      ensures Copies(after, y) > 0
    {
      assert Copies(positions, y) > 0;
    }
  }

  lemma CardinalityUpTo(a: set<int>, b: set<int>)
    requires a <= b
    ensures |a| <= |b|
  {
    assert b == a + (b - a);
  }

  /** Exchanging two elements keeps the number of copies. */
  lemma SwapCopies(reps: seq<Expr>, lo: int, g: Gen, from: int)
    requires ShapeOk(reps, lo, g) && g.height in g.stack && from in g.stack && from != g.height
    ensures KeepsCopies(g.positions, Turned(g, from).positions)
  {
    hide WellFormed, IdsBelow, Contiguous;
    var a, b := g.stack[g.height], g.stack[from];
    assert IsPosition(g.positions, a, g.height) && IsPosition(g.positions, b, from);
    if a != b {
      assert from !in g.positions[a] by {
        assert from in g.positions[a] ==> HoldsAt(g.stack, from, a);
      }
      assert g.height !in g.positions[b] by {
        assert g.height in g.positions[b] ==> HoldsAt(g.stack, g.height, b);
      }
      var p := Turned(g, from).positions;
      assert p[a] == g.positions[a] - {g.height} + {from};
      assert p[b] == g.positions[b] - {from} + {g.height};
    }
  }

  /** A copy on top is one more. */
  lemma DupCopies(reps: seq<Expr>, lo: int, g: Gen, c: Id)
    requires ShapeOk(reps, lo, g) && c in g.positions
    ensures KeepsCopies(g.positions, Put(g, c).positions) && Copies(Put(g, c).positions, c) == Copies(g.positions, c) + 1
  {
    hide WellFormed, IdsBelow;
    assert g.height + 1 !in g.positions[c] by {
      assert g.height + 1 in g.positions[c] ==> HoldsAt(g.stack, g.height + 1, c);
    }
  }

  ghost predicate LiveAt(reps: seq<Expr>, needed: set<(Id, Id)>, final: set<Id>, present: set<Id>, positions: map<Id, set<int>>) {
    Available(reps, needed, final, positions) && Closed(needed, positions.Keys) && present <= positions.Keys
  }

  lemma LiveKept(reps: seq<Expr>, needed: set<(Id, Id)>, final: set<Id>, present: set<Id>, before: map<Id, set<int>>, after: map<Id, set<int>>)
    requires LiveAt(reps, needed, final, present, before) && KeepsCopies(before, after)
    ensures LiveAt(reps, needed, final, present, after)
  {
    hide Available, Copies;
    KeptAvailable(reps, needed, final, before, after);
  }

  lemma CopiesKept(before: map<Id, set<int>>, after: map<Id, set<int>>, x: Id)
    requires KeepsCopies(before, after)
    ensures before.Keys == after.Keys && Copies(before, x) <= Copies(after, x)
  {
  }

  // ----- computing a class -----

  function Occurrences(ids: seq<Id>, x: Id): nat {
    if ids == [] then 0 else (if ids[0] == x then 1 else 0) + Occurrences(ids[1..], x)
  }

  /** The arguments on top may be used up: of those that something else wants there are other copies. */
  predicate Spare(needed: set<(Id, Id)>, final: set<Id>, positions: map<Id, set<int>>, c: Id, ids: seq<Id>) {
    forall x | x in ids && Wanted(needed, final, positions.Keys, x, Some(c)) :: Copies(positions, x) > Occurrences(ids, x)
  }

  lemma FewOccurrences(a: Id, b: Id, x: Id)
    ensures Occurrences([a], x) == if a == x then 1 else 0
    ensures Occurrences([a, b], x) == (if a == x then 1 else 0) + (if b == x then 1 else 0)
  {
    assert [a][1..] == [] && [a, b][1..] == [b] && [b][1..] == [];
  }

  /** The argument was moved, or a copy of it was made. */
  lemma SpareOne(needed: set<(Id, Id)>, final: set<Id>, before: map<Id, set<int>>, after: map<Id, set<int>>, c: Id, a: Id)
    requires before.Keys == after.Keys
    requires Wanted(needed, final, before.Keys, a, Some(c)) ==> Copies(after, a) > 1
    ensures Spare(needed, final, after, c, [a])
  {
    hide Wanted, Copies, Occurrences;
    FewOccurrences(a, a, a);
  }

  lemma SpareMoved(needed: set<(Id, Id)>, final: set<Id>, before: map<Id, set<int>>, after: map<Id, set<int>>, c: Id, a: Id, b: Id)
    requires before.Keys == after.Keys
    requires Wanted(needed, final, before.Keys, b, Some(c)) ==> Copies(before, b) > 1
    requires if a == b then Copies(after, b) > Copies(before, b) else
               Copies(before, b) <= Copies(after, b) && (Wanted(needed, final, before.Keys, a, Some(c)) ==> Copies(after, a) > 1)
    ensures Spare(needed, final, after, c, [a, b])
  {
    hide Wanted, Copies, Occurrences;
    FewOccurrences(a, b, a);
    FewOccurrences(a, b, b);
  }

  lemma SpareTwice(needed: set<(Id, Id)>, final: set<Id>, positions: map<Id, set<int>>, c: Id, a: Id)
    requires Copies(positions, a) > 2
    ensures Spare(needed, final, positions, c, [a, a])
  {
    hide Wanted, Copies, Occurrences;
    FewOccurrences(a, a, a);
  }

  lemma SpareCopied(needed: set<(Id, Id)>, final: set<Id>, before: map<Id, set<int>>, after: map<Id, set<int>>, c: Id, a: Id, b: Id)
    requires before.Keys == after.Keys && a != b && Copies(after, b) > 1
    requires Wanted(needed, final, before.Keys, a, Some(c)) ==> Copies(after, a) > 1
    ensures Spare(needed, final, after, c, [a, b])
  {
    hide Wanted, Copies, Occurrences;
    FewOccurrences(a, b, a);
    FewOccurrences(a, b, b);
  }

  lemma SpareReversed(needed: set<(Id, Id)>, final: set<Id>, before: map<Id, set<int>>, after: map<Id, set<int>>, c: Id, a: Id, b: Id)
    requires Spare(needed, final, before, c, [a, b]) && KeepsCopies(before, after)
    ensures Spare(needed, final, after, c, [b, a])
  {
    hide Wanted, Copies, Occurrences;
    forall x | x in [b, a] && Wanted(needed, final, after.Keys, x, Some(c))
      ensures Copies(after, x) > Occurrences([b, a], x)
    {
      assert x in [a, b];
      FewOccurrences(a, b, x);
      FewOccurrences(b, a, x);
      CopiesKept(before, after, x);
    }
  }

  lemma {:induction false} TopPositions(ids: seq<Id>, height: int, x: Id) returns (s: set<int>)
    ensures |s| == Occurrences(ids, x)
    ensures forall h :: h in s <==> 0 <= height - h < |ids| && ids[height - h] == x
  {
    if ids == [] {
      s := {};
    } else {
      var rest := TopPositions(ids[1..], height - 1, x);
      s := rest + if ids[0] == x then {height} else {};
      assert height !in rest;
    }
  }

  /** A class with more copies than are used up is still there afterwards. */
  lemma CopyBelow(reps: seq<Expr>, lo: int, g: Gen, ids: seq<Id>, x: Id)
    requires ShapeOk(reps, lo, g) && OnTop(g, ids) && Copies(g.positions, x) > Occurrences(ids, x)
    ensures x in g.positions && |PositionsUpTo(g.positions[x], g.height - |ids|)| > 0
  {
    hide WellFormed, IdsBelow;
    var top := TopPositions(ids, g.height, x);
    var low := PositionsUpTo(g.positions[x], g.height - |ids|);
    forall h | h in g.positions[x]
      ensures h in low + top
    {
      assert HoldsAt(g.stack, h, x);
      if h > g.height - |ids| {
        assert HoldsAt(g.stack, g.height - (g.height - h), ids[g.height - h]);
      }
    }
    CardinalityUpTo(g.positions[x], low + top);
  }

  lemma {:induction false} NoOccurrence(ids: seq<Id>, x: Id)
    requires x !in ids
    ensures Occurrences(ids, x) == 0
  {
    if ids != [] {
      NoOccurrence(ids[1..], x);
    }
  }

  /** After the instruction of a class, everything that is still wanted is available. */
  lemma ComputedAvailable(reps: seq<Expr>, lo: int, needed: set<(Id, Id)>, final: set<Id>, g: Gen, c: Id, item: Item, ids: seq<Id>)
    requires ShapeOk(reps, lo, g) && OnTop(g, ids) && c < |reps| && reps[c].item == item
    requires Available(reps, needed, final, g.positions) && Spare(needed, final, g.positions, c, ids)
    requires ReturnValues(item) == 1 || IsStoreItem(item)
    ensures Available(reps, needed, final, Applied(g, c, item, |ids|).positions)
    ensures Applied(g, c, item, |ids|).positions.Keys == g.positions.Keys + {c}
  {
    hide WellFormed, IdsBelow, PositionsOk, Contiguous, OnTop, IsStoreItem, ReturnValues, PositionsUpTo;
    var after := Applied(g, c, item, |ids|).positions;
    assert after.Keys == g.positions.Keys + {c};
    forall x | x in after && IsValue(reps, x) && Wanted(needed, final, after.Keys, x, None)
      ensures Copies(after, x) > 0
    {
      if x == c {
        assert ReturnValues(item) == 1;
        assert Reduced(g, |ids|).height + 1 in after[c];
      } else {
        StillWanted(needed, final, g.positions.Keys, c, x);
        if x !in ids {
          NoOccurrence(ids, x);
        }
        CopyBelow(reps, lo, g, ids, x);
      }
    }
  }

  lemma StillWanted(needed: set<(Id, Id)>, final: set<Id>, computed: set<Id>, c: Id, x: Id)
    requires Wanted(needed, final, computed + {c}, x, None)
    ensures Wanted(needed, final, computed, x, Some(c)) && Wanted(needed, final, computed, x, None)
  {
  }

  // ----- in the end -----

  /** When the roots are computed, everything is. */
  lemma {:induction false} AllComputed(reps: seq<Expr>, needed: set<(Id, Id)>, present: set<Id>, roots: set<Id>, computed: set<Id>, p: (Id, Id))
    requires PairsOk(reps, needed, present) && Grounded(needed, roots) && Closed(needed, computed) && roots <= computed
    requires p in needed
    ensures p.1 in computed
    decreases |reps| - p.1
  {
    assert PairOk(reps, present, p);
    if p.1 !in roots {
      var q :| q in needed && q.0 == p.1;
      assert PairOk(reps, present, q);
      AllComputed(reps, needed, present, roots, computed, q);
    }
  }
}
