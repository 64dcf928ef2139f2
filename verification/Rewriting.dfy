/** Whole-program meaning of local rewriting.

    Every pass of the optimiser that works on neighbouring items cuts the program into pieces and
    replaces each piece on its own. This module shows once and for all when that keeps the
    behaviour of the complete program, jumps and loops included. */
module Rewriting {
  import opened Wrappers
  import opened Words
  import opened Items
  import opened Machine

  /** A piece of a program and its replacement. */
  datatype Piece = Piece(before: seq<Item>, after: seq<Item>)

  function Before(ps: seq<Piece>): seq<Item> {
    if ps == [] then [] else ps[0].before + Before(ps[1..])
  }

  function After(ps: seq<Piece>): seq<Item> {
    if ps == [] then [] else ps[0].after + After(ps[1..])
  }

  predicate NoTags(items: seq<Item>) {
    forall i | 0 <= i < |items| :: !items[i].Tag?
  }

  predicate EndsInTag(items: seq<Item>) {
    |items| > 0 && items[|items| - 1].Tag? && NoTags(items[..|items| - 1])
  }

  /** Tags are kept, and control can only enter a piece at its start or behind its last item. */
  predicate TagsKept(p: Piece) {
    || (NoTags(p.before) && NoTags(p.after))
    || (EndsInTag(p.before) && EndsInTag(p.after) && LastItem(p.before) == LastItem(p.after))
  }

  function LastItem(items: seq<Item>): Item
    requires |items| > 0
  {
    items[|items| - 1]
  }

  /** Where the original piece does not fail, the replacement does the same; it may also fall
      through where the original jumps to the tag right behind it. */
  ghost predicate SameStep(env: Env, p: Piece, stack: seq<Word>, w: World) {
    var r, r' := Exec(env, p.before, stack, w), Exec(env, p.after, stack, w);
    || r.Fail?
    || r' == r
    || (r.Jump? && EndsInTag(p.before) && r.dest == env.address(LastItem(p.before).data) && r' == Next(r.stack, r.world))
  }

  ghost predicate Replaces(env: Env, p: Piece) {
    TagsKept(p) && forall stack, w :: SameStep(env, p, stack, w)
  }

  ghost predicate AllReplace(env: Env, ps: seq<Piece>) {
    forall i | 0 <= i < |ps| :: Replaces(env, ps[i])
  }

  /** The tags of a program in the order of their appearance. */
  function TagsOf(prog: seq<Item>): seq<Word> {
    if prog == [] then []
    else if prog[0].Tag? then [prog[0].data] + TagsOf(prog[1..])
    else TagsOf(prog[1..])
  }

  /** No two tags of the program are placed at the same address. */
  ghost predicate DistinctTags(env: Env, prog: seq<Item>) {
    var tags := TagsOf(prog);
    forall i, j | 0 <= i < j < |tags| :: env.address(tags[i]) != env.address(tags[j])
  }

  lemma {:induction false} TagsOfConcat(a: seq<Item>, b: seq<Item>)
    ensures TagsOf(a + b) == TagsOf(a) + TagsOf(b)
  {
    if a == [] {
      assert a + b == b;
    } else {
      assert (a + b)[0] == a[0] && (a + b)[1..] == a[1..] + b;
      TagsOfConcat(a[1..], b);
    }
  }

  lemma {:induction false} TagsOfMember(a: seq<Item>, i: nat)
    requires i < |a| && a[i].Tag?
    ensures a[i].data in TagsOf(a)
  {
    if i > 0 {
      TagsOfMember(a[1..], i - 1);
    }
  }

  lemma {:induction false} TagsOfNone(a: seq<Item>)
    requires NoTags(a)
    ensures TagsOf(a) == []
  {
    if a != [] {
      TagsOfNone(a[1..]);
    }
  }

  lemma TagsOfLast(a: seq<Item>)
    requires EndsInTag(a)
    ensures TagsOf(a) == [LastItem(a).data]
  {
    var front := a[..|a| - 1];
    assert a == front + [LastItem(a)];
    TagsOfConcat(front, [LastItem(a)]);
    TagsOfNone(front);
  }

  lemma {:induction false} TagsOfPieces(ps: seq<Piece>)
    requires forall i | 0 <= i < |ps| :: TagsKept(ps[i])
    ensures TagsOf(Before(ps)) == TagsOf(After(ps))
  {
    if ps != [] {
      var p := ps[0];
      TagsOfConcat(p.before, Before(ps[1..]));
      TagsOfConcat(p.after, After(ps[1..]));
      TagsOfPieces(ps[1..]);
      if NoTags(p.before) && NoTags(p.after) {
        TagsOfNone(p.before);
        TagsOfNone(p.after);
      } else {
        TagsOfLast(p.before);
        TagsOfLast(p.after);
      }
    }
  }

  lemma {:induction false} PiecesAppend(ps: seq<Piece>, p: Piece)
    ensures Before(ps + [p]) == Before(ps) + p.before
    ensures After(ps + [p]) == After(ps) + p.after
  {
    if ps == [] {
      assert ps + [p] == [p];
      assert [p][1..] == [];
    } else {
      assert (ps + [p])[0] == ps[0] && (ps + [p])[1..] == ps[1..] + [p];
      PiecesAppend(ps[1..], p);
    }
  }

  lemma KeptItem(env: Env, item: Item)
    ensures Replaces(env, Piece([item], [item]))
  {
    hide Exec;
  }

  // ----- observable behaviour -----

  ghost predicate Safe(env: Env, prog: seq<Item>, stack: seq<Word>, w: World) {
    forall fuel: nat :: Run(env, prog, prog, stack, w, fuel) != Stuck
  }

  ghost predicate Ends(env: Env, prog: seq<Item>, stack: seq<Word>, w: World, outcome: Outcome) {
    outcome != OutOfFuel && exists fuel: nat :: Run(env, prog, prog, stack, w, fuel) == outcome
  }

  /** From every state in which the old program cannot get stuck, the new one cannot either, and
      both end in exactly the same outcomes (in particular, one diverges if and only if the other does). */
  ghost predicate SameBehaviour(env: Env, old_: seq<Item>, new_: seq<Item>) {
    forall stack, w | Safe(env, old_, stack, w) ::
      && Safe(env, new_, stack, w)
      && forall outcome :: Ends(env, old_, stack, w, outcome) <==> Ends(env, new_, stack, w, outcome)
  }

  // ----- jump targets -----

  lemma {:induction false} TargetSkip(env: Env, a: seq<Item>, b: seq<Item>, dest: Word)
    requires forall i | 0 <= i < |a| :: !IsEntry(env, a[i], dest)
    ensures Target(env, a + b, dest) == Target(env, b, dest)
  {
    if a == [] {
      assert a + b == b;
    } else {
      assert (a + b)[0] == a[0] && (a + b)[1..] == a[1..] + b;
      TargetSkip(env, a[1..], b, dest);
    }
  }

  /** A jump leads to corresponding places of both programs. */
  lemma {:induction false} TargetPieces(env: Env, ps: seq<Piece>, dest: Word) returns (k: nat)
    requires forall i | 0 <= i < |ps| :: TagsKept(ps[i])
    ensures k <= |ps|
    ensures Target(env, Before(ps), dest).None? ==> Target(env, After(ps), dest).None?
    ensures Target(env, Before(ps), dest).Some? ==>
              && Target(env, Before(ps), dest) == Some(Before(ps[k..]))
              && Target(env, After(ps), dest) == Some(After(ps[k..]))
  {
    k := 0;
    if ps != [] {
      var p := ps[0];
      var b, a := Before(ps[1..]), After(ps[1..]);
      if NoTags(p.before) && NoTags(p.after) {
        TargetSkip(env, p.before, b, dest);
        TargetSkip(env, p.after, a, dest);
      } else {
        var t := LastItem(p.before);
        var fb, fa := p.before[..|p.before| - 1], p.after[..|p.after| - 1];
        assert p.before + b == fb + ([t] + b);
        assert p.after + a == fa + ([t] + a);
        TargetSkip(env, fb, [t] + b, dest);
        TargetSkip(env, fa, [t] + a, dest);
        assert ([t] + b)[1..] == b && ([t] + a)[1..] == a;
        if IsEntry(env, t, dest) {
          k := 1;
          return;
        }
      }
      k := TargetPieces(env, ps[1..], dest);
      assert ps[1..][k..] == ps[k + 1..];
      k := k + 1;
    }
  }

  /** The tag at the end of a piece is the only one found at its address. */
  lemma {:induction false} TargetOwn(env: Env, ps: seq<Piece>, k: nat)
    requires k < |ps| && EndsInTag(ps[k].before)
    requires DistinctTags(env, Before(ps))
    ensures var dest := env.address(LastItem(ps[k].before).data);
            Target(env, Before(ps), dest).Some? ==> Target(env, Before(ps), dest) == Some(Before(ps[k + 1..]))
  {
    var front := SplitAt(ps, k);
    var p := ps[k].before;
    var t := LastItem(p);
    var dest := env.address(t.data);
    var rest := Before(ps[k + 1..]);
    var a := front + p[..|p| - 1];
    assert ps[k..][0] == ps[k] && ps[k..][1..] == ps[k + 1..];
    assert Before(ps) == a + ([t] + rest);
    TagsOfConcat(a, [t] + rest);
    assert ([t] + rest)[1..] == rest;
    var tags := TagsOf(Before(ps));
    var at := |TagsOf(a)|;
    assert tags[at] == t.data && tags[..at] == TagsOf(a) && tags[at + 1..] == TagsOf(rest);
    forall i | 0 <= i < |a|
      ensures !IsEntry(env, a[i], dest)
    {
      if a[i].Tag? {
        TagsOfMember(a, i);
        var j :| 0 <= j < at && tags[j] == a[i].data;
      }
    }
    TargetSkip(env, a, [t] + rest, dest);
    if !IsEntry(env, t, dest) {
      forall i | 0 <= i < |rest|
        ensures !IsEntry(env, rest[i], dest)
      {
        if rest[i].Tag? {
          TagsOfMember(rest, i);
          var j :| 0 <= j < |TagsOf(rest)| && TagsOf(rest)[j] == rest[i].data;
          assert tags[at + 1 + j] == rest[i].data;
        }
      }
      TargetSkip(env, rest, [], dest);
      assert rest + [] == rest;
    }
  }

  lemma {:induction false} SplitAt(ps: seq<Piece>, k: nat) returns (front: seq<Item>)
    requires k <= |ps|
    ensures Before(ps) == front + Before(ps[k..])
  {
    if k == 0 {
      front := [];
      assert ps[0..] == ps;
    } else {
      front := SplitAt(ps[1..], k - 1);
      assert ps[1..][k - 1..] == ps[k..];
      front := ps[0].before + front;
    }
  }

  // ----- simulation -----

  lemma AtPiece(env: Env, ps: seq<Piece>, k: nat, stack: seq<Word>, w: World, fuel: nat)
    requires k < |ps|
    ensures Run(env, Before(ps), Before(ps[k..]), stack, w, fuel) ==
            Continue(env, Before(ps), Before(ps[k + 1..]), Exec(env, ps[k].before, stack, w), fuel)
    ensures Run(env, After(ps), After(ps[k..]), stack, w, fuel) ==
            Continue(env, After(ps), After(ps[k + 1..]), Exec(env, ps[k].after, stack, w), fuel)
  {
    hide ExecItem, Run, Exec;
    assert ps[k..][0] == ps[k] && ps[k..][1..] == ps[k + 1..];
    RunExec(env, Before(ps), ps[k].before, Before(ps[k + 1..]), stack, w, fuel);
    RunExec(env, After(ps), ps[k].after, After(ps[k + 1..]), stack, w, fuel);
  }

  lemma AtEnd(env: Env, ps: seq<Piece>, stack: seq<Word>, w: World, fuel: nat)
    ensures Run(env, Before(ps), Before(ps[|ps|..]), stack, w, fuel) == Done(Stopped, [], stack, w)
    ensures Run(env, After(ps), After(ps[|ps|..]), stack, w, fuel) == Done(Stopped, [], stack, w)
  {
    hide ExecItem;
  }

  lemma {:induction false} Forward(env: Env, ps: seq<Piece>, k: nat, stack: seq<Word>, w: World, fuel: nat)
    requires AllReplace(env, ps) && DistinctTags(env, Before(ps))
    requires k <= |ps|
    requires Run(env, Before(ps), Before(ps[k..]), stack, w, fuel).Done?
    ensures Run(env, After(ps), After(ps[k..]), stack, w, fuel) == Run(env, Before(ps), Before(ps[k..]), stack, w, fuel)
    decreases fuel, |ps| - k
  {
    hide Exec, ExecItem, Target, Run, Before, After;
    if k == |ps| {
      AtEnd(env, ps, stack, w, fuel);
    } else {
      AtPiece(env, ps, k, stack, w, fuel);
      assert Replaces(env, ps[k]);
      assert SameStep(env, ps[k], stack, w);
      var r, r' := Exec(env, ps[k].before, stack, w), Exec(env, ps[k].after, stack, w);
      if r.Next? {
        Forward(env, ps, k + 1, r.stack, r.world, fuel);
      } else if r.Jump? {
        if r' == r {
          var k' := TargetPieces(env, ps, r.dest);
          Forward(env, ps, k', r.stack, r.world, fuel - 1);
        } else {
          TargetOwn(env, ps, k);
          Forward(env, ps, k + 1, r.stack, r.world, fuel - 1);
          MoreFuel(env, After(ps), After(ps[k + 1..]), r.stack, r.world, fuel - 1, fuel);
        }
      }
    }
  }

  lemma {:induction false} Backward(env: Env, ps: seq<Piece>, k: nat, stack: seq<Word>, w: World, fuel: nat) returns (n: nat)
    requires AllReplace(env, ps) && DistinctTags(env, Before(ps))
    requires k <= |ps|
    requires forall m: nat :: Run(env, Before(ps), Before(ps[k..]), stack, w, m) != Stuck
    requires Run(env, After(ps), After(ps[k..]), stack, w, fuel) != OutOfFuel
    ensures Run(env, Before(ps), Before(ps[k..]), stack, w, n) == Run(env, After(ps), After(ps[k..]), stack, w, fuel)
    decreases fuel, |ps| - k
  {
    hide Exec, ExecItem, Target, Run, Before, After;
    n := fuel;
    if k == |ps| {
      AtEnd(env, ps, stack, w, fuel);
    } else {
      forall m: nat
        ensures Run(env, Before(ps), Before(ps[k..]), stack, w, m) ==
                Continue(env, Before(ps), Before(ps[k + 1..]), Exec(env, ps[k].before, stack, w), m)
      {
        AtPiece(env, ps, k, stack, w, m);
      }
      AtPiece(env, ps, k, stack, w, fuel);
      assert Replaces(env, ps[k]);
      assert SameStep(env, ps[k], stack, w);
      var r, r' := Exec(env, ps[k].before, stack, w), Exec(env, ps[k].after, stack, w);
      assert Run(env, Before(ps), Before(ps[k..]), stack, w, 0) != Stuck;
      if r.Next? {
        var rest := Before(ps[k + 1..]);
        forall m: nat
          ensures Run(env, Before(ps), rest, r.stack, r.world, m) != Stuck
        {
          assert Run(env, Before(ps), Before(ps[k..]), stack, w, m) != Stuck;
        }
        n := Backward(env, ps, k + 1, r.stack, r.world, fuel);
      } else if r.Jump? {
        var k' := k + 1;
        if r' == r {
          k' := TargetPieces(env, ps, r.dest);
        } else {
          TargetOwn(env, ps, k);
        }
        assert Target(env, Before(ps), r.dest) == Some(Before(ps[k'..]));
        forall m: nat
          ensures Run(env, Before(ps), Before(ps[k'..]), r.stack, r.world, m) != Stuck
        {
          assert Run(env, Before(ps), Before(ps[k..]), stack, w, m + 1) != Stuck;
        }
        n := Backward(env, ps, k', r.stack, r.world, if r' == r then fuel - 1 else fuel);
        n := n + 1;
      }
    }
  }

  lemma SameBehaviourReflexive(env: Env, a: seq<Item>)
    ensures SameBehaviour(env, a, a)
  {
    hide Safe, Ends;
  }

  lemma SameBehaviourTransitive(env: Env, a: seq<Item>, b: seq<Item>, c: seq<Item>)
    requires SameBehaviour(env, a, b) && SameBehaviour(env, b, c)
    ensures SameBehaviour(env, a, c)
  {
    hide Safe, Ends;
  }

  /** The main result: a program rewritten piece by piece behaves like the original. */
  lemma PiecewiseCorrect(env: Env, ps: seq<Piece>)
    requires AllReplace(env, ps) && DistinctTags(env, Before(ps))
    ensures SameBehaviour(env, Before(ps), After(ps))
    ensures TagsOf(After(ps)) == TagsOf(Before(ps)) && DistinctTags(env, After(ps))
  {
    TagsOfPieces(ps);
    assert ps[0..] == ps;
    var p, q := Before(ps), After(ps);
    forall stack, w | Safe(env, p, stack, w)
      ensures Safe(env, q, stack, w)
      ensures forall outcome :: Ends(env, p, stack, w, outcome) <==> Ends(env, q, stack, w, outcome)
    {
      forall fuel: nat | Run(env, q, q, stack, w, fuel) != OutOfFuel
        ensures exists n: nat :: Run(env, p, p, stack, w, n) == Run(env, q, q, stack, w, fuel)
      {
        var n := Backward(env, ps, 0, stack, w, fuel);
      }
      forall fuel: nat | Run(env, p, p, stack, w, fuel) != OutOfFuel
        ensures Run(env, q, q, stack, w, fuel) == Run(env, p, p, stack, w, fuel)
      {
        Forward(env, ps, 0, stack, w, fuel);
      }
    }
  }
}
