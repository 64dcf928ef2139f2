/** C3 linearisation of base contracts (libsolidity/analysis/NameAndTypeResolver.cpp:396-472). */
module Linearisation {
  import opened Wrappers

  /** Contracts are known by their identity. */
  type Contract = nat

  // ----- what a linearisation is -----

  predicate NoDuplicates(s: seq<Contract>) {
    forall i, j | 0 <= i < j < |s| :: s[i] != s[j]
  }

  /** a comes before b. */
  ghost predicate Precedes(order: seq<Contract>, a: Contract, b: Contract) {
    exists p, q :: 0 <= p < q < |order| && order[p] == a && order[q] == b
  }

  /** All elements of the list appear, in the order of the list. */
  ghost predicate Respects(order: seq<Contract>, l: seq<Contract>) {
    && (forall i | 0 <= i < |l| :: l[i] in order)
    && (forall i, j | 0 <= i < j < |l| :: Precedes(order, l[i], l[j]))
  }

  ghost predicate InSome(x: Contract, lists: seq<seq<Contract>>) {
    exists k :: 0 <= k < |lists| && x in lists[k]
  }

  /** A common order: without duplicates, exactly the elements of the lists, consistent with every list. */
  ghost predicate Linearises(order: seq<Contract>, lists: seq<seq<Contract>>) {
    && NoDuplicates(order)
    && (forall i | 0 <= i < |order| :: InSome(order[i], lists))
    && (forall k | 0 <= k < |lists| :: Respects(order, lists[k]))
  }

  predicate AllNonEmpty(lists: seq<seq<Contract>>) {
    forall k | 0 <= k < |lists| :: |lists[k]| > 0
  }

  // ----- merging, as a function -----

  predicate OnlyAtHead(lists: seq<seq<Contract>>, c: Contract)
    requires AllNonEmpty(lists)
  {
    forall k | 0 <= k < |lists| :: c !in lists[k][1..]
  }

  /** The first head from list k on that is not in the tail of any list. */
  function NextHead(lists: seq<seq<Contract>>, k: nat): (r: Option<Contract>)
    requires AllNonEmpty(lists) && k <= |lists|
    ensures r.Some? ==> OnlyAtHead(lists, r.value) && exists i :: k <= i < |lists| && lists[i][0] == r.value
    ensures r.None? ==> forall i | k <= i < |lists| :: !OnlyAtHead(lists, lists[i][0])
    decreases |lists| - k
  {
    if k == |lists| then None
    else if OnlyAtHead(lists, lists[k][0]) then Some(lists[k][0])
    else NextHead(lists, k + 1)
  }

  function RemoveAll(l: seq<Contract>, c: Contract): seq<Contract> {
    if l == [] then [] else (if l[0] == c then [] else [l[0]]) + RemoveAll(l[1..], c)
  }

  /** The lists without the candidate; lists that become empty are dropped. */
  function Removed(lists: seq<seq<Contract>>, c: Contract): (r: seq<seq<Contract>>)
    ensures AllNonEmpty(r)
  {
    if lists == [] then []
    else
      var l := RemoveAll(lists[0], c);
      (if l == [] then [] else [l]) + Removed(lists[1..], c)
  }

  function Total(lists: seq<seq<Contract>>): nat {
    if lists == [] then 0 else |lists[0]| + Total(lists[1..])
  }

  lemma {:induction false} RemoveAllLength(l: seq<Contract>, c: Contract)
    ensures |RemoveAll(l, c)| <= |l| && (c in l ==> |RemoveAll(l, c)| < |l|)
    ensures c !in RemoveAll(l, c) && forall x :: x in RemoveAll(l, c) <==> x in l && x != c
  {
    if l != [] {
      RemoveAllLength(l[1..], c);
      assert l == [l[0]] + l[1..];
    }
  }

  lemma {:induction false} RemovedTotal(lists: seq<seq<Contract>>, c: Contract, k: nat)
    requires k < |lists| && c in lists[k]
    ensures Total(Removed(lists, c)) < Total(lists)
  {
    hide RemoveAll;
    var l := RemoveAll(lists[0], c);
    RemoveAllLength(lists[0], c);
    RemovedAtMost(lists[1..], c);
    if k > 0 {
      RemovedTotal(lists[1..], c, k - 1);
    }
    TotalFirst(l, Removed(lists[1..], c));
  }

  lemma TotalFirst(l: seq<Contract>, rest: seq<seq<Contract>>)
    ensures Total((if l == [] then [] else [l]) + rest) == |l| + Total(rest)
  {
    if l == [] {
      assert [] + rest == rest;
    } else {
      assert ([l] + rest)[0] == l && ([l] + rest)[1..] == rest;
    }
  }

  lemma {:induction false} RemovedAtMost(lists: seq<seq<Contract>>, c: Contract)
    ensures Total(Removed(lists, c)) <= Total(lists)
  {
    hide RemoveAll;
    if lists != [] {
      RemoveAllLength(lists[0], c);
      RemovedAtMost(lists[1..], c);
      TotalFirst(RemoveAll(lists[0], c), Removed(lists[1..], c));
    }
  }

  function Merge(lists: seq<seq<Contract>>): Option<seq<Contract>>
    requires AllNonEmpty(lists)
    decreases Total(lists)
  {
    if lists == [] then Some([])
    else
      match NextHead(lists, 0)
      case None => None
      case Some(c) =>
        HeadShrinks(lists, c);
        match Merge(Removed(lists, c))
        case None => None
        case Some(rest) => Some([c] + rest)
  }

  lemma HeadShrinks(lists: seq<seq<Contract>>, c: Contract)
    requires AllNonEmpty(lists) && exists i :: 0 <= i < |lists| && lists[i][0] == c
    ensures Total(Removed(lists, c)) < Total(lists)
  {
    var i :| 0 <= i < |lists| && lists[i][0] == c;
    RemovedTotal(lists, c, i);
  }

  // ----- the effect of removing a candidate -----

  lemma {:induction false} RemoveMissing(l: seq<Contract>, c: Contract)
    requires c !in l
    ensures RemoveAll(l, c) == l
  {
    if l != [] {
      RemoveMissing(l[1..], c);
    }
  }

  /** A candidate can only be removed from the heads. */
  lemma RemoveFromHead(l: seq<Contract>, c: Contract)
    requires |l| > 0 && c !in l[1..]
    ensures RemoveAll(l, c) == if l[0] == c then l[1..] else l
  {
    RemoveMissing(l[1..], c);
  }

  /** Where a list is after the removal. */
  lemma {:induction false} RemovedHas(lists: seq<seq<Contract>>, c: Contract, k: nat) returns (k': nat)
    requires k < |lists|
    ensures RemoveAll(lists[k], c) != [] ==> k' < |Removed(lists, c)| && Removed(lists, c)[k'] == RemoveAll(lists[k], c)
  {
    hide RemoveAll;
    k' := 0;
    var first := RemoveAll(lists[0], c);
    if k > 0 {
      k' := RemovedHas(lists[1..], c, k - 1);
      k' := if first == [] then k' else k' + 1;
    }
  }

  /** Where a list after the removal comes from. */
  lemma {:induction false} RemovedFrom(lists: seq<seq<Contract>>, c: Contract, k: nat) returns (k': nat)
    requires k < |Removed(lists, c)|
    ensures k' < |lists| && Removed(lists, c)[k] == RemoveAll(lists[k'], c)
  {
    hide RemoveAll;
    var first := RemoveAll(lists[0], c);
    if first != [] && k == 0 {
      k' := 0;
    } else {
      k' := RemovedFrom(lists[1..], c, if first == [] then k else k - 1);
      k' := k' + 1;
    }
  }

  // ----- soundness -----

  lemma PrecedesBehind(c: Contract, order: seq<Contract>, a: Contract, b: Contract)
    ensures Precedes(order, a, b) ==> Precedes([c] + order, a, b)
    ensures b in order ==> Precedes([c] + order, c, b)
  {
    if Precedes(order, a, b) {
      var p, q :| 0 <= p < q < |order| && order[p] == a && order[q] == b;
      assert ([c] + order)[p + 1] == a && ([c] + order)[q + 1] == b;
    }
    if b in order {
      var q :| 0 <= q < |order| && order[q] == b;
      assert ([c] + order)[0] == c && ([c] + order)[q + 1] == b;
    }
  }

  lemma RespectsBehind(c: Contract, order: seq<Contract>, l: seq<Contract>)
    requires |l| > 0
    requires (l[0] == c && (l[1..] != [] ==> Respects(order, l[1..]))) || Respects(order, l)
    ensures Respects([c] + order, l)
  {
    hide Precedes;
    var more := [c] + order;
    assert l == [l[0]] + l[1..];
    assert forall x | x in order :: x in more;
    forall i, j | 0 <= i < j < |l|
      ensures Precedes(more, l[i], l[j])
    {
      PrecedesBehind(c, order, l[i], l[j]);
      if !Respects(order, l) {
        assert l[j] == l[1..][j - 1];
        if i > 0 {
          assert l[i] == l[1..][i - 1];
        }
      }
    }
  }

  lemma PrependCandidate(lists: seq<seq<Contract>>, c: Contract, order: seq<Contract>)
    requires AllNonEmpty(lists) && OnlyAtHead(lists, c) && exists i :: 0 <= i < |lists| && lists[i][0] == c
    requires Linearises(order, Removed(lists, c))
    ensures Linearises([c] + order, lists)
  {
    hide Removed, RemoveAll, Respects;
    var more := [c] + order;
    forall i | 0 <= i < |order|
      ensures InSome(order[i], lists) && order[i] != c
    {
      assert InSome(order[i], Removed(lists, c));
      var k :| 0 <= k < |Removed(lists, c)| && order[i] in Removed(lists, c)[k];
      var k' := RemovedFrom(lists, c, k);
      RemoveAllLength(lists[k'], c);
    }
    var h :| 0 <= h < |lists| && lists[h][0] == c;
    assert InSome(c, lists);
    forall i | 0 <= i < |more|
      ensures InSome(more[i], lists)
    {
      assert i > 0 ==> more[i] == order[i - 1];
    }
    forall k | 0 <= k < |lists|
      ensures Respects(more, lists[k])
    {
      var l := lists[k];
      RemoveFromHead(l, c);
      var k' := RemovedHas(lists, c, k);
      if l[0] == c && l[1..] == [] {
      } else {
        assert Respects(order, Removed(lists, c)[k']);
      }
      RespectsBehind(c, order, l);
    }
  }

  lemma {:induction false} MergeSound(lists: seq<seq<Contract>>)
    requires AllNonEmpty(lists)
    ensures Merge(lists).Some? ==> Linearises(Merge(lists).value, lists)
    decreases Total(lists)
  {
    hide Removed, Linearises, OnlyAtHead;
    if lists == [] {
      EmptyLinearises(lists);
    } else {
      var c := NextHead(lists, 0);
      if c.Some? {
        HeadShrinks(lists, c.value);
        MergeSound(Removed(lists, c.value));
        if Merge(Removed(lists, c.value)).Some? {
          PrependCandidate(lists, c.value, Merge(Removed(lists, c.value)).value);
        }
      }
    }
  }

  lemma EmptyLinearises(lists: seq<seq<Contract>>)
    requires lists == []
    ensures Linearises([], lists)
  {
  }

  // ----- completeness -----

  /** The first element of a common order is a possible candidate. */
  lemma FirstIsCandidate(lists: seq<seq<Contract>>, order: seq<Contract>)
    requires AllNonEmpty(lists) && lists != [] && Linearises(order, lists)
    ensures order != [] && OnlyAtHead(lists, order[0]) && exists k :: 0 <= k < |lists| && lists[k][0] == order[0]
  {
    assert Respects(order, lists[0]);
    assert lists[0][0] in order;
    var x := order[0];
    forall k | 0 <= k < |lists|
      ensures x !in lists[k][1..]
    {
      var l := lists[k];
      assert Respects(order, l);
      forall i | 1 <= i < |l|
        ensures l[i] != x
      {
        NotFirst(order, l[0], l[i]);
      }
    }
    assert InSome(x, lists);
    var k :| 0 <= k < |lists| && x in lists[k];
    assert lists[k] == [lists[k][0]] + lists[k][1..];
  }

  lemma NotFirst(order: seq<Contract>, a: Contract, b: Contract)
    requires NoDuplicates(order) && Precedes(order, a, b)
    ensures b != order[0]
  {
  }

  lemma {:induction false} RemoveKeepsOrder(order: seq<Contract>, c: Contract, a: Contract, b: Contract)
    requires Precedes(order, a, b) && a != c && b != c
    ensures Precedes(RemoveAll(order, c), a, b)
  {
    hide Precedes;
    PrecedesSplit(order, a, b);
    RemoveAllLength(order[1..], c);
    var rest := RemoveAll(order[1..], c);
    if Precedes(order[1..], a, b) {
      RemoveKeepsOrder(order[1..], c, a, b);
      PrecedesBehind(order[0], rest, a, b);
      assert [] + rest == rest;
    } else {
      PrecedesBehind(order[0], rest, a, b);
    }
  }

  lemma PrecedesSplit(order: seq<Contract>, a: Contract, b: Contract)
    requires Precedes(order, a, b)
    ensures |order| > 0 && (Precedes(order[1..], a, b) || (order[0] == a && b in order[1..]))
  {
    var p, q :| 0 <= p < q < |order| && order[p] == a && order[q] == b;
    assert order[1..][q - 1] == b;
    if p > 0 {
      assert order[1..][p - 1] == a;
    }
  }

  lemma {:induction false} RemoveNoDuplicates(order: seq<Contract>, c: Contract)
    requires NoDuplicates(order)
    ensures NoDuplicates(RemoveAll(order, c))
  {
    if order != [] {
      RemoveNoDuplicates(order[1..], c);
      RemoveAllLength(order[1..], c);
      var rest := RemoveAll(order[1..], c);
      assert forall i | 0 <= i < |rest| :: rest[i] in order[1..];
      assert order[0] !in order[1..];
    }
  }

  /** Without the candidate, the rest of a common order is a common order of what is left. */
  lemma RestLinearises(lists: seq<seq<Contract>>, c: Contract, order: seq<Contract>)
    requires AllNonEmpty(lists) && OnlyAtHead(lists, c) && Linearises(order, lists)
    ensures Linearises(RemoveAll(order, c), Removed(lists, c))
  {
    hide Removed, RemoveAll, Precedes, NoDuplicates;
    var rest := RemoveAll(order, c);
    RemoveNoDuplicates(order, c);
    RemoveAllLength(order, c);
    forall i | 0 <= i < |rest|
      ensures InSome(rest[i], Removed(lists, c))
    {
      assert rest[i] in order && rest[i] != c;
      var j :| 0 <= j < |order| && order[j] == rest[i];
      assert InSome(order[j], lists);
      var k :| 0 <= k < |lists| && rest[i] in lists[k];
      RemoveAllLength(lists[k], c);
      var k' := RemovedHas(lists, c, k);
      assert rest[i] in Removed(lists, c)[k'];
    }
    forall k | 0 <= k < |Removed(lists, c)|
      ensures Respects(rest, Removed(lists, c)[k])
    {
      var k' := RemovedFrom(lists, c, k);
      RemoveFromHead(lists[k'], c);
      RespectsRest(order, lists[k'], c);
    }
  }

  lemma RespectsRest(order: seq<Contract>, l: seq<Contract>, c: Contract)
    requires |l| > 0 && c !in l[1..] && Respects(order, l)
    ensures Respects(RemoveAll(order, c), if l[0] == c then l[1..] else l)
  {
    hide RemoveAll, Precedes;
    var l' := if l[0] == c then l[1..] else l;
    var d := if l[0] == c then 1 else 0;
    RemoveAllLength(order, c);
    assert c !in l' by {
      assert l == [l[0]] + l[1..];
    }
    forall i, j | 0 <= i < j < |l'|
      ensures Precedes(RemoveAll(order, c), l'[i], l'[j])
    {
      assert l'[i] == l[i + d] && l'[j] == l[j + d];
      RemoveKeepsOrder(order, c, l'[i], l'[j]);
    }
  }

  /** Merging fails only if there is no common order. */
  lemma {:induction false} MergeComplete(lists: seq<seq<Contract>>, order: seq<Contract>)
    requires AllNonEmpty(lists) && Linearises(order, lists)
    ensures Merge(lists).Some?
    decreases Total(lists)
  {
    hide Removed, RemoveAll, Linearises, OnlyAtHead;
    if lists != [] {
      FirstIsCandidate(lists, order);
      var c := NextHead(lists, 0).value;
      HeadShrinks(lists, c);
      RestLinearises(lists, c, order);
      MergeComplete(Removed(lists, c), RemoveAll(order, c));
    }
  }

  // ----- which order is chosen -----

  /** The list without the elements that have been placed already. */
  function Without(l: seq<Contract>, placed: seq<Contract>): seq<Contract> {
    if l == [] then []
    else (if l[0] in placed then [] else [l[0]]) + Without(l[1..], placed)
  }

  /** The element is the head of what is left of list k. */
  predicate HeadAt(lists: seq<seq<Contract>>, placed: seq<Contract>, k: nat, c: Contract) {
    k < |lists| && |Without(lists[k], placed)| > 0 && Without(lists[k], placed)[0] == c
  }

  /** The element stands behind another one in what is left of some list. */
  ghost predicate Waits(lists: seq<seq<Contract>>, placed: seq<Contract>, c: Contract) {
    exists k :: WaitsIn(lists, placed, k, c)
  }

  predicate WaitsIn(lists: seq<seq<Contract>>, placed: seq<Contract>, k: nat, c: Contract) {
    k < |lists| && |Without(lists[k], placed)| > 0 && c in Without(lists[k], placed)[1..]
  }

  /** The element is the first head that does not wait: it waits nowhere, and the heads of the lists
      before the first one it heads all wait. */
  ghost predicate FirstFree(lists: seq<seq<Contract>>, placed: seq<Contract>, c: Contract) {
    !Waits(lists, placed, c) && exists k :: FreeAt(lists, placed, k, c)
  }

  ghost predicate FreeAt(lists: seq<seq<Contract>>, placed: seq<Contract>, k: nat, c: Contract) {
    HeadAt(lists, placed, k, c) && forall j, d | 0 <= j < k && HeadAt(lists, placed, j, d) :: Waits(lists, placed, d)
  }

  /** At every place stands the first head that does not wait among the lists without what comes before. */
  ghost predicate AlwaysFirstFree(lists: seq<seq<Contract>>, order: seq<Contract>) {
    forall i | 0 <= i < |order| :: FirstFree(lists, order[..i], order[i])
  }

  lemma FirstFreeUnique(lists: seq<seq<Contract>>, placed: seq<Contract>, c: Contract, d: Contract)
    requires FirstFree(lists, placed, c) && FirstFree(lists, placed, d)
    ensures c == d
  {
    hide HeadAt, Waits;
    var j :| FreeAt(lists, placed, j, c);
    var k :| FreeAt(lists, placed, k, d);
    SameHead(lists, placed, j, c, d);
  }

  lemma SameHead(lists: seq<seq<Contract>>, placed: seq<Contract>, j: nat, c: Contract, d: Contract)
    ensures HeadAt(lists, placed, j, c) && HeadAt(lists, placed, j, d) ==> c == d
  {
  }

  /** The choice leaves one order only. */
  lemma {:induction false} OrderUnique(lists: seq<seq<Contract>>, a: seq<Contract>, b: seq<Contract>, n: nat)
    requires AlwaysFirstFree(lists, a) && AlwaysFirstFree(lists, b) && n <= |a| && n <= |b|
    ensures a[..n] == b[..n]
  {
    hide FirstFree;
    if n > 0 {
      OrderUnique(lists, a, b, n - 1);
      FirstFreeUnique(lists, a[..n - 1], a[n - 1], b[n - 1]);
      assert a[..n] == a[..n - 1] + [a[n - 1]] && b[..n] == b[..n - 1] + [b[n - 1]];
    }
  }

  lemma {:induction false} WithoutNothing(l: seq<Contract>)
    ensures Without(l, []) == l
  {
    if l != [] {
      WithoutNothing(l[1..]);
    }
  }

  lemma {:induction false} WithoutOneMore(l: seq<Contract>, placed: seq<Contract>, c: Contract)
    ensures Without(l, placed + [c]) == RemoveAll(Without(l, placed), c)
  {
    if l != [] {
      WithoutOneMore(l[1..], placed, c);
      var rest := Without(l[1..], placed);
      if l[0] !in placed {
        assert ([l[0]] + rest)[1..] == rest;
      } else {
        assert [] + rest == rest;
        assert [] + Without(l[1..], placed + [c]) == Without(l[1..], placed + [c]);
      }
    }
  }

  /** What is left of the lists, without those that have become empty. */
  function Left(lists: seq<seq<Contract>>, placed: seq<Contract>): (r: seq<seq<Contract>>)
    ensures AllNonEmpty(r)
  {
    if lists == [] then []
    else
      var l := Without(lists[0], placed);
      (if l == [] then [] else [l]) + Left(lists[1..], placed)
  }

  lemma {:induction false} LeftAtStart(lists: seq<seq<Contract>>)
    ensures Left(lists, []) == NonEmptyOnes(lists)
  {
    if lists != [] {
      LeftAtStart(lists[1..]);
      WithoutNothing(lists[0]);
      assert [] + NonEmptyOnes(lists[1..]) == NonEmptyOnes(lists[1..]);
    }
  }

  lemma {:induction false} LeftOneMore(lists: seq<seq<Contract>>, placed: seq<Contract>, c: Contract)
    ensures Left(lists, placed + [c]) == Removed(Left(lists, placed), c)
  {
    hide Without, RemoveAll;
    if lists != [] {
      LeftOneMore(lists[1..], placed, c);
      WithoutOneMore(lists[0], placed, c);
      NothingRemoved(c);
      var l, rest := Without(lists[0], placed), Left(lists[1..], placed);
      if l == [] {
        assert [] + rest == rest;
        assert [] + Left(lists[1..], placed + [c]) == Left(lists[1..], placed + [c]);
      } else {
        assert ([l] + rest)[0] == l && ([l] + rest)[1..] == rest;
      }
    }
  }

  lemma NothingRemoved(c: Contract)
    ensures RemoveAll([], c) == []
  {
  }

  /** Where a list is among those that are left. */
  function Place(lists: seq<seq<Contract>>, placed: seq<Contract>, k: nat): nat
    requires k <= |lists|
  {
    if k == 0 then 0
    else Place(lists[1..], placed, k - 1) + if Without(lists[0], placed) == [] then 0 else 1
  }

  lemma {:induction false} PlaceIs(lists: seq<seq<Contract>>, placed: seq<Contract>, k: nat)
    requires k < |lists| && Without(lists[k], placed) != []
    ensures Place(lists, placed, k) < |Left(lists, placed)| && Left(lists, placed)[Place(lists, placed, k)] == Without(lists[k], placed)
  {
    hide Without;
    if k > 0 {
      PlaceIs(lists[1..], placed, k - 1);
    }
  }

  lemma {:induction false} PlaceOrder(lists: seq<seq<Contract>>, placed: seq<Contract>, j: nat, k: nat)
    requires j < k <= |lists| && Without(lists[j], placed) != []
    ensures Place(lists, placed, j) < Place(lists, placed, k)
  {
    hide Without;
    if j > 0 {
      PlaceOrder(lists[1..], placed, j - 1, k - 1);
    }
  }

  /** Where a list that is left comes from. */
  lemma {:induction false} OriginOf(lists: seq<seq<Contract>>, placed: seq<Contract>, p: nat) returns (k: nat)
    requires p < |Left(lists, placed)|
    ensures k < |lists| && Without(lists[k], placed) == Left(lists, placed)[p] && Place(lists, placed, k) == p
  {
    hide Without;
    var first := Without(lists[0], placed);
    if first != [] && p == 0 {
      k := 0;
    } else {
      k := OriginOf(lists[1..], placed, if first == [] then p else p - 1);
      k := k + 1;
    }
  }

  lemma WaitsIffTail(lists: seq<seq<Contract>>, placed: seq<Contract>, c: Contract)
    ensures Waits(lists, placed, c) <==> !OnlyAtHead(Left(lists, placed), c)
  {
    hide Without, Left;
    var left := Left(lists, placed);
    if Waits(lists, placed, c) {
      var k :| WaitsIn(lists, placed, k, c);
      PlaceIs(lists, placed, k);
    }
    if !OnlyAtHead(left, c) {
      var p :| 0 <= p < |left| && c in left[p][1..];
      var k := OriginOf(lists, placed, p);
      assert WaitsIn(lists, placed, k, c);
    }
  }

  /** The candidate that the merge takes is the first free head. */
  lemma CandidateFirstFree(lists: seq<seq<Contract>>, placed: seq<Contract>, p: nat)
    requires var left := Left(lists, placed);
             p < |left| && OnlyAtHead(left, left[p][0]) && forall q | 0 <= q < p :: !OnlyAtHead(left, left[q][0])
    ensures FirstFree(lists, placed, Left(lists, placed)[p][0])
  {
    hide Without, Left, OnlyAtHead, Place, Waits;
    var left := Left(lists, placed);
    var c := left[p][0];
    var k := OriginOf(lists, placed, p);
    WaitsIffTail(lists, placed, c);
    forall j, d | 0 <= j < k && HeadAt(lists, placed, j, d)
      ensures Waits(lists, placed, d)
    {
      PlaceIs(lists, placed, j);
      PlaceOrder(lists, placed, j, k);
      WaitsIffTail(lists, placed, d);
      assert left[Place(lists, placed, j)][0] == d;
    }
    assert FreeAt(lists, placed, k, c);
  }

  // ----- the algorithm -----

  method AppearsOnlyAtHead(lists: seq<seq<Contract>>, c: Contract) returns (r: bool)
    requires AllNonEmpty(lists)
    ensures r == OnlyAtHead(lists, c)
  {
    var k := 0;
    while k < |lists|
      invariant 0 <= k <= |lists| && forall i | 0 <= i < k :: c !in lists[i][1..]
    {
      if c in lists[k][1..] {
        return false;
      }
      k := k + 1;
    }
    return true;
  }

  method NextCandidate(lists: seq<seq<Contract>>) returns (r: Option<Contract>)
    requires AllNonEmpty(lists)
    ensures r == NextHead(lists, 0)
    ensures r.Some? ==> exists k :: 0 <= k < |lists| && lists[k][0] == r.value && OnlyAtHead(lists, lists[k][0])
                                 && forall j | 0 <= j < k :: !OnlyAtHead(lists, lists[j][0])
  {
    hide OnlyAtHead;
    var k := 0;
    while k < |lists|
      invariant 0 <= k <= |lists| && NextHead(lists, 0) == NextHead(lists, k)
      invariant forall j | 0 <= j < k :: !OnlyAtHead(lists, lists[j][0])
    {
      var found := AppearsOnlyAtHead(lists, lists[k][0]);
      if found {
        return Some(lists[k][0]);
      }
      k := k + 1;
    }
    r := None;
  }

  method RemoveCandidate(lists: seq<seq<Contract>>, c: Contract) returns (r: seq<seq<Contract>>)
    ensures r == Removed(lists, c)
  {
    r := [];
    var k := 0;
    assert lists[0..] == lists;
    while k < |lists|
      invariant 0 <= k <= |lists| && Removed(lists, c) == r + Removed(lists[k..], c)
    {
      assert lists[k..][0] == lists[k] && lists[k..][1..] == lists[k + 1..];
      var l := RemoveFromList(lists[k], c);
      if l != [] {
        r := r + [l];
      }
      k := k + 1;
    }
  }

  method RemoveFromList(l: seq<Contract>, c: Contract) returns (r: seq<Contract>)
    ensures r == RemoveAll(l, c)
  {
    r := [];
    var i := 0;
    assert l[0..] == l;
    while i < |l|
      invariant 0 <= i <= |l| && RemoveAll(l, c) == r + RemoveAll(l[i..], c)
    {
      assert l[i..][0] == l[i] && l[i..][1..] == l[i + 1..];
      if l[i] != c {
        r := r + [l[i]];
      }
      i := i + 1;
    }
  }

  function NonEmptyOnes(lists: seq<seq<Contract>>): (r: seq<seq<Contract>>)
    ensures AllNonEmpty(r)
    ensures forall k | 0 <= k < |r| :: r[k] in lists
    ensures forall k | 0 <= k < |lists| && |lists[k]| > 0 :: lists[k] in r
  {
    if lists == [] then []
    else
      var rest := NonEmptyOnes(lists[1..]);
      assert forall k | 1 <= k < |lists| :: lists[k] == lists[1..][k - 1];
      if lists[0] == [] then rest else [lists[0]] + rest
  }

  /** Empty lists do not matter. */
  lemma LinearisesNonEmpty(order: seq<Contract>, lists: seq<seq<Contract>>)
    ensures Linearises(order, NonEmptyOnes(lists)) <==> Linearises(order, lists)
  {
    hide Precedes, NoDuplicates;
    var some := NonEmptyOnes(lists);
    hide NonEmptyOnes;
    forall x
      ensures InSome(x, some) <==> InSome(x, lists)
    {
      if InSome(x, lists) {
        var k :| 0 <= k < |lists| && x in lists[k];
        var k' :| 0 <= k' < |some| && some[k'] == lists[k];
      }
      if InSome(x, some) {
        var k :| 0 <= k < |some| && x in some[k];
        var k' :| 0 <= k' < |lists| && lists[k'] == some[k];
      }
    }
    if Linearises(order, some) {
      forall k | 0 <= k < |lists|
        ensures Respects(order, lists[k])
      {
        if lists[k] != [] {
          var k' :| 0 <= k' < |some| && some[k'] == lists[k];
        }
      }
    }
    if Linearises(order, lists) {
      forall k | 0 <= k < |some|
        ensures Respects(order, some[k])
      {
        var k' :| 0 <= k' < |lists| && lists[k'] == some[k];
      }
    }
  }

  ghost predicate HasOrder(lists: seq<seq<Contract>>) {
    exists order :: Linearises(order, lists)
  }

  /** Merges the lists into a common order. The result is empty exactly if there is none, or nothing
      to be ordered. */
  method CThreeMerge(toMerge: seq<seq<Contract>>) returns (result: seq<Contract>)
    ensures result != [] ==> Linearises(result, toMerge)
    ensures result == [] <==> !HasOrder(toMerge) || forall k | 0 <= k < |toMerge| :: toMerge[k] == []
    ensures result != [] ==> Merge(NonEmptyOnes(toMerge)) == Some(result)
    ensures AlwaysFirstFree(toMerge, result)
  {
    hide Linearises, Removed, OnlyAtHead, NextHead, HasOrder, NonEmptyOnes, Left, FirstFree;
    var left := DropEmpty(toMerge);
    ghost var start := left;
    result := [];
    MergeUnprefixed(left);
    LeftAtStart(toMerge);
    while left != []
      invariant AllNonEmpty(left) && left == Left(toMerge, result) && AlwaysFirstFree(toMerge, result)
      invariant Merge(start) == Prefixed(result, Merge(left))
      decreases Total(left)
    {
      var candidate := NextCandidate(left);
      if candidate.None? {
        MergeDecides(toMerge);
        return [];
      }
      ghost var k :| 0 <= k < |left| && left[k][0] == candidate.value && OnlyAtHead(left, left[k][0])
                     && forall j | 0 <= j < k :: !OnlyAtHead(left, left[j][0]);
      CandidateFirstFree(toMerge, result, k);
      OneMorePlaced(toMerge, result, candidate.value);
      LeftOneMore(toMerge, result, candidate.value);
      HeadShrinks(left, candidate.value);
      MergeStep(left, candidate.value, result);
      result := result + [candidate.value];
      left := RemoveCandidate(left, candidate.value);
    }
    assert Merge(left) == Some([]) && result + [] == result;
    MergeDecides(toMerge);
    MergeEmpty(start);
  }

  lemma OneMorePlaced(lists: seq<seq<Contract>>, order: seq<Contract>, c: Contract)
    requires AlwaysFirstFree(lists, order) && FirstFree(lists, order, c)
    ensures AlwaysFirstFree(lists, order + [c])
  {
    hide FirstFree;
    var more := order + [c];
    forall i | 0 <= i < |more|
      ensures FirstFree(lists, more[..i], more[i])
    {
      if i < |order| {
        assert more[..i] == order[..i];
      } else {
        assert more[..i] == order;
      }
    }
  }

  function Prefixed(front: seq<Contract>, r: Option<seq<Contract>>): Option<seq<Contract>> {
    if r.Some? then Some(front + r.value) else None
  }

  lemma MergeUnprefixed(lists: seq<seq<Contract>>)
    requires AllNonEmpty(lists)
    ensures Merge(lists) == Prefixed([], Merge(lists))
  {
    hide Merge;
    var r := Merge(lists);
    assert r.Some? ==> [] + r.value == r.value;
  }

  lemma MergeStep(lists: seq<seq<Contract>>, c: Contract, front: seq<Contract>)
    requires AllNonEmpty(lists) && lists != [] && NextHead(lists, 0) == Some(c)
    ensures Prefixed(front, Merge(lists)) == Prefixed(front + [c], Merge(Removed(lists, c)))
  {
    hide Removed, OnlyAtHead, NextHead;
    var rest := Merge(Removed(lists, c));
    if rest.Some? {
      assert front + ([c] + rest.value) == front + [c] + rest.value;
    }
  }

  lemma MergeEmpty(lists: seq<seq<Contract>>)
    requires AllNonEmpty(lists)
    ensures Merge(lists) == Some([]) <==> lists == []
  {
  }

  lemma MergeDecides(lists: seq<seq<Contract>>)
    ensures Merge(NonEmptyOnes(lists)).Some? <==> HasOrder(lists)
    ensures Merge(NonEmptyOnes(lists)).Some? ==> Linearises(Merge(NonEmptyOnes(lists)).value, lists)
  {
    hide Linearises, Merge;
    var some := NonEmptyOnes(lists);
    MergeSound(some);
    if Merge(some).Some? {
      LinearisesNonEmpty(Merge(some).value, lists);
    }
    if HasOrder(lists) {
      var order :| Linearises(order, lists);
      LinearisesNonEmpty(order, lists);
      MergeComplete(some, order);
    }
  }

  method DropEmpty(lists: seq<seq<Contract>>) returns (r: seq<seq<Contract>>)
    ensures r == NonEmptyOnes(lists)
  {
    r := [];
    var k := 0;
    assert lists[0..] == lists;
    while k < |lists|
      invariant 0 <= k <= |lists| && NonEmptyOnes(lists) == r + NonEmptyOnes(lists[k..])
    {
      assert lists[k..][0] == lists[k] && lists[k..][1..] == lists[k + 1..];
      if |lists[k]| > 0 {
        r := r + [lists[k]];
      }
      k := k + 1;
    }
  }

  // ----- linearising the bases of a contract -----

  datatype LinearError = ContractExpected | BaseNotDefined | Impossible

  type Linearised = Fallible<seq<Contract>, LinearError>

  function Reversed(s: seq<Contract>): seq<Contract> {
    if s == [] then [] else Reversed(s[1..]) + [s[0]]
  }

  lemma {:induction false} ReversedHas(s: seq<Contract>, i: nat)
    requires i < |s|
    ensures s[i] in Reversed(s)
  {
    if i > 0 {
      ReversedHas(s[1..], i - 1);
    }
  }

  /** The lists to merge for a contract with these bases: the linearisations of the bases, the last
      base first, and the list of the contract and its direct bases. */
  function BaseLists(known: map<Contract, seq<Contract>>, bases: seq<Contract>): seq<seq<Contract>>
    requires forall i | 0 <= i < |bases| :: bases[i] in known
  {
    if bases == [] then [] else BaseLists(known, bases[1..]) + [known[bases[0]]]
  }

  function Input(known: map<Contract, seq<Contract>>, contract: Contract, bases: seq<Contract>): seq<seq<Contract>>
    requires forall i | 0 <= i < |bases| :: bases[i] in known
  {
    BaseLists(known, bases) + [[contract] + Reversed(bases)]
  }

  /** Every recorded linearisation starts with its own contract. */
  predicate OwnFirst(known: map<Contract, seq<Contract>>) {
    forall c | c in known :: |known[c]| > 0 && known[c][0] == c && NoDuplicates(known[c])
  }

  lemma {:induction false} BaseListHeads(known: map<Contract, seq<Contract>>, bases: seq<Contract>)
    requires OwnFirst(known) && forall i | 0 <= i < |bases| :: bases[i] in known
    ensures forall k | 0 <= k < |BaseLists(known, bases)| :: |BaseLists(known, bases)[k]| > 0 && BaseLists(known, bases)[k][0] in bases
  {
    if bases != [] {
      BaseListHeads(known, bases[1..]);
    }
  }

  lemma {:induction false} AllAreNonEmpty(lists: seq<seq<Contract>>)
    requires AllNonEmpty(lists)
    ensures NonEmptyOnes(lists) == lists
  {
    if lists != [] {
      AllAreNonEmpty(lists[1..]);
    }
  }

  /** The first candidate is the contract itself, because every other head is one of its direct bases. */
  lemma ContractFirst(known: map<Contract, seq<Contract>>, contract: Contract, bases: seq<Contract>)
    requires OwnFirst(known) && forall i | 0 <= i < |bases| :: bases[i] in known
    ensures var lists := Input(known, contract, bases);
            AllNonEmpty(lists) && (Merge(lists).Some? ==> |Merge(lists).value| > 0 && Merge(lists).value[0] == contract)
  {
    hide Merge, OnlyAtHead, BaseLists;
    var lists := Input(known, contract, bases);
    var n := |lists| - 1;
    BaseListHeads(known, bases);
    assert lists[n] == [contract] + Reversed(bases) && lists[n][1..] == Reversed(bases);
    forall k | 0 <= k < n
      ensures !OnlyAtHead(lists, lists[k][0])
    {
      assert lists[k] == BaseLists(known, bases)[k];
      var i :| 0 <= i < |bases| && bases[i] == lists[k][0];
      ReversedHas(bases, i);
      InTail(lists, n, bases[i]);
    }
    if Merge(lists).Some? {
      MergeHead(lists);
    }
  }

  lemma InTail(lists: seq<seq<Contract>>, k: nat, c: Contract)
    requires AllNonEmpty(lists) && k < |lists| && c in lists[k][1..]
    ensures !OnlyAtHead(lists, c)
  {
  }

  lemma MergeHead(lists: seq<seq<Contract>>)
    requires AllNonEmpty(lists) && lists != [] && Merge(lists).Some?
    ensures NextHead(lists, 0).Some? && |Merge(lists).value| > 0 && Merge(lists).value[0] == NextHead(lists, 0).value
  {
    hide Removed, OnlyAtHead;
  }

  class Resolver {
    /** The linearisations found so far. */
    var known: map<Contract, seq<Contract>>

    ghost predicate Valid()
      reads this
    {
      OwnFirst(known)
    }

    constructor ()
      ensures Valid() && known == map[]
    {
      known := map[];
    }

    /** The bases mentioned by a contract; a base that is not a contract is None. */
    method LinearizeBaseContracts(contract: Contract, specifiers: seq<Option<Contract>>) returns (r: Linearised)
      requires Valid()
      modifies this
      ensures Valid()
      ensures r.Failure? ==> known == old(known)
      ensures r.Success? ==> known == old(known)[contract := r.value]
      ensures r == Failure(ContractExpected) || r == Failure(BaseNotDefined) ||
              (AllDefined(old(known), specifiers) &&
               (r.Success? <==> HasOrder(Input(old(known), contract, Bases(specifiers)))))
      ensures AllDefined(old(known), specifiers) ==> r != Failure(ContractExpected) && r != Failure(BaseNotDefined)
      ensures r.Success? ==> |r.value| > 0 && r.value[0] == contract && Linearises(r.value, Input(old(known), contract, Bases(specifiers)))
      ensures r.Success? ==> AlwaysFirstFree(Input(old(known), contract, Bases(specifiers)), r.value)
      ensures r.Success? ==> forall i, j | 0 <= i < j < |Bases(specifiers)| :: Precedes(r.value, Bases(specifiers)[j], Bases(specifiers)[i])
    {
      hide Merge, Linearises, HasOrder, AlwaysFirstFree, Precedes;
      var direct: seq<Contract> := [];
      var input: seq<seq<Contract>> := [];
      var i := 0;
      assert Bases(specifiers[..0]) == [];
      while i < |specifiers|
        invariant 0 <= i <= |specifiers| && known == old(known)
        invariant AllDefined(known, specifiers[..i])
        invariant input == BaseLists(known, Bases(specifiers[..i])) && direct == Reversed(Bases(specifiers[..i]))
      {
        if specifiers[i].None? {
          return Failure(ContractExpected);
        }
        var base := specifiers[i].value;
        direct := [base] + direct;
        if base !in known || known[base] == [] {
          return Failure(BaseNotDefined);
        }
        input := [known[base]] + input;
        assert specifiers[..i + 1] == specifiers[..i] + [specifiers[i]];
        BasesSnoc(specifiers[..i], base);
        SnocFacts(known, Bases(specifiers[..i]), base);
        i := i + 1;
      }
      assert specifiers[..i] == specifiers;
      input := input + [[contract] + direct];
      assert input == Input(known, contract, Bases(specifiers));
      ContractFirst(known, contract, Bases(specifiers));
      AllAreNonEmpty(input);
      var result := CThreeMerge(input);
      assert input[|input| - 1] != [];
      if result == [] {
        return Failure(Impossible);
      }
      UniqueOrder(result, input);
      LaterFirst(known, result, contract, Bases(specifiers));
      known := known[contract := result];
      r := Success(result);
    }
  }

  /** A base that is mentioned later comes before one that is mentioned earlier. */
  lemma LaterFirst(known: map<Contract, seq<Contract>>, order: seq<Contract>, contract: Contract, bases: seq<Contract>)
    requires (forall i | 0 <= i < |bases| :: bases[i] in known) && Linearises(order, Input(known, contract, bases))
    ensures forall i, j | 0 <= i < j < |bases| :: Precedes(order, bases[j], bases[i])
  {
    hide Precedes, BaseLists, NoDuplicates;
    var lists := Input(known, contract, bases);
    var l := [contract] + Reversed(bases);
    assert lists[|lists| - 1] == l && Respects(order, l);
    forall i, j | 0 <= i < j < |bases|
      ensures Precedes(order, bases[j], bases[i])
    {
      ReversedAt(bases, i);
      ReversedAt(bases, j);
      assert l[|bases| - j] == bases[j] && l[|bases| - i] == bases[i];
    }
  }

  lemma {:induction false} ReversedAt(s: seq<Contract>, i: nat)
    requires i < |s|
    ensures |Reversed(s)| == |s| && Reversed(s)[|s| - 1 - i] == s[i]
  {
    if |s| > 1 {
      ReversedAt(s[1..], if i > 0 then i - 1 else 0);
    }
  }

  lemma UniqueOrder(order: seq<Contract>, lists: seq<seq<Contract>>)
    requires Linearises(order, lists)
    ensures NoDuplicates(order) && HasOrder(lists)
  {
  }

  /** The contracts among the specifiers. */
  function Bases(specifiers: seq<Option<Contract>>): seq<Contract> {
    if specifiers == [] then []
    else Bases(specifiers[..|specifiers| - 1]) +
         (if specifiers[|specifiers| - 1].Some? then [specifiers[|specifiers| - 1].value] else [])
  }

  predicate AllDefined(known: map<Contract, seq<Contract>>, specifiers: seq<Option<Contract>>) {
    && (forall i | 0 <= i < |specifiers| :: specifiers[i].Some? && specifiers[i].value in known)
    && (forall i | 0 <= i < |Bases(specifiers)| :: Bases(specifiers)[i] in known)
  }

  lemma BasesSnoc(specifiers: seq<Option<Contract>>, base: Contract)
    ensures Bases(specifiers + [Some(base)]) == Bases(specifiers) + [base]
  {
    assert (specifiers + [Some(base)])[..|specifiers|] == specifiers;
  }

  lemma {:induction false} SnocFacts(known: map<Contract, seq<Contract>>, bases: seq<Contract>, base: Contract)
    requires base in known && forall i | 0 <= i < |bases| :: bases[i] in known
    ensures BaseLists(known, bases + [base]) == [known[base]] + BaseLists(known, bases)
    ensures Reversed(bases + [base]) == [base] + Reversed(bases)
  {
    if bases == [] {
      assert bases + [base] == [base];
    } else {
      assert (bases + [base])[0] == bases[0] && (bases + [base])[1..] == bases[1..] + [base];
      SnocFacts(known, bases[1..], base);
    }
  }
}
