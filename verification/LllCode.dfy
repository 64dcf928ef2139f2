/** What it means for a piece of code inside a program to compute something, and how such pieces are
    put together with jumps. */
module LllCode {
  import opened Wrappers
  import opened Words
  import opened Instructions
  import opened Items
  import opened Machine
  import Rewriting
  import opened LllEval

  // ----- renumbering tags -----

  function ShiftedItem(item: Item, offset: nat): Item {
    match item
    case Tag(d) => Tag(Wrap(d as int + offset))
    case PushTag(d) => PushTag(Wrap(d as int + offset))
    case _ => item
  }

  function Shift(items: seq<Item>, offset: nat): seq<Item> {
    seq(|items|, i requires 0 <= i < |items| => ShiftedItem(items[i], offset))
  }

  lemma ShiftConcat(a: seq<Item>, b: seq<Item>, offset: nat)
    ensures Shift(a + b, offset) == Shift(a, offset) + Shift(b, offset)
  {
  }

  lemma ShiftShift(items: seq<Item>, a: nat, b: nat)
    ensures Shift(Shift(items, a), b) == Shift(items, a + b)
  {
    forall i | 0 <= i < |items|
      ensures ShiftedItem(ShiftedItem(items[i], a), b) == ShiftedItem(items[i], a + b)
    {
      if items[i].Tag? || items[i].PushTag? {
        WrapAdd(items[i].data as int + a, b);
      }
    }
  }

  // ----- programs -----

  /** All tags may be jumped to, and no two are at the same address. */
  ghost predicate Good(env: Env, prog: seq<Item>) {
    && (forall i | 0 <= i < |prog| && prog[i].Tag? :: env.entry(prog[i].data))
    && Rewriting.DistinctTags(env, prog)
  }

  /** A tag of the program is where its address leads. */
  lemma TagTarget(env: Env, prog: seq<Item>, pre: seq<Item>, t: Word, post: seq<Item>)
    requires Good(env, prog) && prog == pre + [Tag(t)] + post
    ensures Target(env, prog, env.address(t)) == Some(post)
  {
    assert prog == pre + ([Tag(t)] + post);
    Rewriting.TagsOfConcat(pre, [Tag(t)] + post);
    Rewriting.TagsOfConcat([Tag(t)], post);
    var tags := Rewriting.TagsOf(prog);
    var at := |Rewriting.TagsOf(pre)|;
    assert Rewriting.TagsOf([Tag(t)]) == [t];
    assert tags[at] == t && tags[..at] == Rewriting.TagsOf(pre);
    forall i | 0 <= i < |pre|
      ensures !IsEntry(env, pre[i], env.address(t))
    {
      if pre[i].Tag? {
        Rewriting.TagsOfMember(pre, i);
        var j :| 0 <= j < at && tags[j] == pre[i].data;
      }
    }
    Rewriting.TargetSkip(env, pre, [Tag(t)] + post, env.address(t));
    assert prog[|pre|] == Tag(t);
    assert ([Tag(t)] + post)[1..] == post;
  }

  // ----- reaching a place -----

  /** After exactly j jumps the run is at the other place. */
  ghost predicate ReachesIn(env: Env, prog: seq<Item>, rest: seq<Item>, stack: seq<Word>, w: World,
                            rest': seq<Item>, stack': seq<Word>, w': World, j: nat)
  {
    && (forall f: nat | f >= j :: Run(env, prog, rest, stack, w, f) == Run(env, prog, rest', stack', w', f - j))
    && (forall f: nat | f < j :: Run(env, prog, rest, stack, w, f) == OutOfFuel)
  }

  ghost predicate EndsIn(env: Env, prog: seq<Item>, rest: seq<Item>, stack: seq<Word>, w: World,
                         status: Status, output: seq<Octet>, final: seq<Word>, w': World, j: nat)
  {
    && (forall f: nat | f >= j :: Run(env, prog, rest, stack, w, f) == Done(status, output, final, w'))
    && (forall f: nat | f < j :: Run(env, prog, rest, stack, w, f) == OutOfFuel)
  }

  /** The run from `rest` gives the result; a result with values leads on to `post`. Starved with n
      means that n jumps are not enough. */
  ghost predicate Sim(env: Env, prog: seq<Item>, rest: seq<Item>, stack: seq<Word>, w: World, n: nat, res: Res, post: seq<Item>) {
    match res
    case Val(s, w') => exists j: nat :: ReachesIn(env, prog, rest, stack, w, post, s, w', j)
    case Ended(status, output, w') => exists j: nat, s :: EndsIn(env, prog, rest, stack, w, status, output, s, w', j)
    case Starved => forall f: nat | f < n :: Run(env, prog, rest, stack, w, f) == OutOfFuel
    case Ill => false
  }

  lemma ReachesTrans(env: Env, prog: seq<Item>, r0: seq<Item>, s0: seq<Word>, w0: World, r1: seq<Item>, s1: seq<Word>, w1: World, i: nat,
                     r2: seq<Item>, s2: seq<Word>, w2: World, j: nat)
    requires ReachesIn(env, prog, r0, s0, w0, r1, s1, w1, i) && ReachesIn(env, prog, r1, s1, w1, r2, s2, w2, j)
    ensures ReachesIn(env, prog, r0, s0, w0, r2, s2, w2, i + j)
  {
    hide Run;
    forall f: nat
      ensures f >= i + j ==> Run(env, prog, r0, s0, w0, f) == Run(env, prog, r2, s2, w2, f - (i + j))
      ensures f < i + j ==> Run(env, prog, r0, s0, w0, f) == OutOfFuel
    {
      if f >= i {
        assert Run(env, prog, r0, s0, w0, f) == Run(env, prog, r1, s1, w1, f - i);
        if f - i >= j {
          assert Run(env, prog, r1, s1, w1, f - i) == Run(env, prog, r2, s2, w2, f - i - j);
        }
      }
    }
  }

  /** Going on from a place that is reached. `back` says that a jump is known to be taken on the way. */
  lemma SimAfter(env: Env, prog: seq<Item>, rest: seq<Item>, stack: seq<Word>, w: World, mid: seq<Item>, s: seq<Word>, w': World, j: nat,
                 n: nat, m: nat, res: Res, post: seq<Item>)
    requires ReachesIn(env, prog, rest, stack, w, mid, s, w', j) && Sim(env, prog, mid, s, w', m, res, post)
    requires m >= n || (m == n - 1 && j > 0)
    ensures Sim(env, prog, rest, stack, w, n, res, post)
  {
    hide Run;
    match res
    case Val(s2, w2) =>
      var i: nat :| ReachesIn(env, prog, mid, s, w', post, s2, w2, i);
      ReachesTrans(env, prog, rest, stack, w, mid, s, w', j, post, s2, w2, i);
    case Ended(status, output, w2) =>
      var i: nat, s2 :| EndsIn(env, prog, mid, s, w', status, output, s2, w2, i);
      forall f: nat
        ensures f >= j + i ==> Run(env, prog, rest, stack, w, f) == Done(status, output, s2, w2)
        ensures f < j + i ==> Run(env, prog, rest, stack, w, f) == OutOfFuel
      {
        if f >= j {
          assert Run(env, prog, rest, stack, w, f) == Run(env, prog, mid, s, w', f - j);
        }
      }
      assert EndsIn(env, prog, rest, stack, w, status, output, s2, w2, j + i);
    case Starved =>
      forall f: nat | f < n
        ensures Run(env, prog, rest, stack, w, f) == OutOfFuel
      {
        if f >= j {
          assert Run(env, prog, rest, stack, w, f) == Run(env, prog, mid, s, w', f - j);
        }
      }
    case Ill =>
  }

  /** Sequencing: what comes after a piece with values. */
  lemma SimThen(env: Env, prog: seq<Item>, rest: seq<Item>, stack: seq<Word>, w: World, n: nat, res: Res, mid: seq<Item>, res': Res, post: seq<Item>)
    requires Sim(env, prog, rest, stack, w, n, res, mid)
    requires if res.Val? then Sim(env, prog, mid, res.vals, res.world, n, res', post) else res' == res
    ensures Sim(env, prog, rest, stack, w, n, res', post)
  {
    hide Run, ReachesIn, EndsIn;
    if res.Val? {
      var j: nat :| ReachesIn(env, prog, rest, stack, w, mid, res.vals, res.world, j);
      SimAfter(env, prog, rest, stack, w, mid, res.vals, res.world, j, n, n, res', post);
    }
  }

  // ----- straight code -----

  lemma SimNothing(env: Env, prog: seq<Item>, rest: seq<Item>, stack: seq<Word>, w: World, n: nat)
    ensures Sim(env, prog, rest, stack, w, n, Val(stack, w), rest)
  {
    hide Run;
    assert ReachesIn(env, prog, rest, stack, w, rest, stack, w, 0);
  }

  /** Items that neither jump nor fail. */
  lemma SimExec(env: Env, prog: seq<Item>, code: seq<Item>, post: seq<Item>, stack: seq<Word>, w: World, n: nat)
    requires Exec(env, code, stack, w).Next?
    ensures var r := Exec(env, code, stack, w);
            Sim(env, prog, code + post, stack, w, n, Val(r.stack, r.world), post)
  {
    hide Run, Exec;
    var r := Exec(env, code, stack, w);
    forall f: nat
      ensures Run(env, prog, code + post, stack, w, f) == Run(env, prog, post, r.stack, r.world, f - 0)
    {
      RunExec(env, prog, code, post, stack, w, f);
    }
    assert ReachesIn(env, prog, code + post, stack, w, post, r.stack, r.world, 0);
  }

  lemma SimHalt(env: Env, prog: seq<Item>, code: seq<Item>, post: seq<Item>, stack: seq<Word>, w: World, n: nat)
    requires Exec(env, code, stack, w).Halt?
    ensures var r := Exec(env, code, stack, w);
            Sim(env, prog, code + post, stack, w, n, Ended(r.status, r.output, r.world), post)
  {
    hide Run, Exec;
    var r := Exec(env, code, stack, w);
    forall f: nat
      ensures Run(env, prog, code + post, stack, w, f) == Done(r.status, r.output, r.stack, r.world)
    {
      RunExec(env, prog, code, post, stack, w, f);
    }
    assert EndsIn(env, prog, code + post, stack, w, r.status, r.output, r.stack, r.world, 0);
  }

  // ----- jumps -----

  function JumpCode(t: Word): seq<Item> {
    [PushTag(t), Operation(JUMP)]
  }

  function JumpICode(t: Word): seq<Item> {
    [PushTag(t), Operation(JUMPI)]
  }

  /** A jump leads behind the tag, after one jump. */
  lemma JumpReaches(env: Env, prog: seq<Item>, post: seq<Item>, stack: seq<Word>, w: World, pre: seq<Item>, t: Word, there: seq<Item>)
    requires Good(env, prog) && prog == pre + [Tag(t)] + there
    ensures ReachesIn(env, prog, JumpCode(t) + post, stack, w, there, stack, w, 1)
  {
    hide Run, Exec, Good;
    TagTarget(env, prog, pre, t, there);
    ExecTwo(env, PushTag(t), Operation(JUMP), stack, w);
    ExecPush(env, PushTag(t), stack, w);
    var pushed := stack + [env.address(t)];
    ExecJump(env, pushed, w);
    assert Drop(pushed, 1) == stack;
    forall f: nat
      ensures Run(env, prog, JumpCode(t) + post, stack, w, f) == RunJump(env, prog, env.address(t), stack, w, f)
    {
      RunExec(env, prog, JumpCode(t), post, stack, w, f);
    }
  }

  /** A conditional jump leads behind the tag, or goes on. */
  lemma JumpIReaches(env: Env, prog: seq<Item>, post: seq<Item>, stack: seq<Word>, c: Word, w: World, pre: seq<Item>, t: Word, there: seq<Item>)
    requires Good(env, prog) && prog == pre + [Tag(t)] + there
    ensures c != 0 ==> ReachesIn(env, prog, JumpICode(t) + post, stack + [c], w, there, stack, w, 1)
    ensures c == 0 ==> ReachesIn(env, prog, JumpICode(t) + post, stack + [c], w, post, stack, w, 0)
  {
    hide Run, Exec, Good;
    TagTarget(env, prog, pre, t, there);
    var s := stack + [c];
    ExecTwo(env, PushTag(t), Operation(JUMPI), s, w);
    ExecPush(env, PushTag(t), s, w);
    var pushed := s + [env.address(t)];
    ExecJumpI(env, pushed, w);
    assert Drop(pushed, 2) == stack;
    forall f: nat
      ensures Run(env, prog, JumpICode(t) + post, s, w, f) ==
              (if c != 0 then RunJump(env, prog, env.address(t), stack, w, f) else Run(env, prog, post, stack, w, f))
    {
      RunExec(env, prog, JumpICode(t), post, s, w, f);
    }
  }

  lemma SimJump(env: Env, prog: seq<Item>, post: seq<Item>, stack: seq<Word>, w: World, n: nat, pre: seq<Item>, t: Word, there: seq<Item>)
    requires Good(env, prog) && prog == pre + [Tag(t)] + there
    ensures Sim(env, prog, JumpCode(t) + post, stack, w, n, Val(stack, w), there)
  {
    hide Run, ReachesIn, Good;
    JumpReaches(env, prog, post, stack, w, pre, t, there);
  }

  lemma SimTag(env: Env, prog: seq<Item>, t: Word, post: seq<Item>, stack: seq<Word>, w: World, n: nat)
    ensures Sim(env, prog, [Tag(t)] + post, stack, w, n, Val(stack, w), post)
  {
    hide Run, Exec, Sim;
    ExecOne(env, Tag(t), stack, w);
    ExecTag(env, Tag(t), stack, w);
    SimExec(env, prog, [Tag(t)], post, stack, w, n);
  }

  // ----- correct code -----

  function Onto(stack: seq<Word>, r: Res): Res {
    if r.Val? then r.(vals := stack + r.vals) else r
  }

  /** The code, with its tags renumbered in any way, computes the expression at any place of a program. */
  ghost predicate Correct(e: Expr, items: seq<Item>) {
    forall offset: nat, env, pre, post, stack, w, n: nat | Good(env, pre + Shift(items, offset) + post) ::
      CorrectAt(e, items, offset, env, pre, post, stack, w, n)
  }

  ghost predicate CorrectAt(e: Expr, items: seq<Item>, offset: nat, env: Env, pre: seq<Item>, post: seq<Item>, stack: seq<Word>, w: World, n: nat) {
    var code, r := Shift(items, offset), Eval(env, e, w, n);
    && (r.Val? ==> |r.vals| == Dep(e))
    && Sim(env, pre + code + post, code + post, stack, w, n, Onto(stack, r), post)
  }

  lemma UseCorrect(e: Expr, items: seq<Item>, offset: nat, env: Env, prog: seq<Item>, pre: seq<Item>, post: seq<Item>, stack: seq<Word>, w: World, n: nat)
    requires Correct(e, items) && Good(env, prog) && prog == pre + Shift(items, offset) + post
    ensures var r := Eval(env, e, w, n);
            && (r.Val? ==> |r.vals| == Dep(e))
            && Sim(env, prog, Shift(items, offset) + post, stack, w, n, Onto(stack, r), post)
  {
    hide Eval, Sim, Good, Shift;
    assert CorrectAt(e, items, offset, env, pre, post, stack, w, n);
  }

  /** Keeping only the first d values. */
  lemma UseKept(e: Expr, items: seq<Item>, offset: nat, d: nat, env: Env, prog: seq<Item>, pre: seq<Item>, post: seq<Item>, stack: seq<Word>, w: World, n: nat)
    requires Correct(e, items) && Good(env, prog) && d <= Dep(e)
    requires prog == pre + Shift(items, offset) + Pops(Dep(e) - d) + post
    ensures var r := Cut(Eval(env, e, w, n), d);
            && (r.Val? ==> |r.vals| == d)
            && Sim(env, prog, Shift(items, offset) + Pops(Dep(e) - d) + post, stack, w, n, Onto(stack, r), post)
  {
    hide Eval, Sim, Good, Shift, Correct, Pops, Exec;
    var r, k := Eval(env, e, w, n), Dep(e) - d;
    var mid := Pops(k) + post;
    assert prog == pre + Shift(items, offset) + mid;
    assert Shift(items, offset) + Pops(k) + post == Shift(items, offset) + mid;
    UseCorrect(e, items, offset, env, prog, pre, mid, stack, w, n);
    if r.Val? {
      var s := stack + r.vals;
      ExecPops(env, k, s, r.world);
      SimExec(env, prog, Pops(k), post, s, r.world, n);
      assert Drop(s, k) == stack + r.vals[..d];
    }
    SimThen(env, prog, Shift(items, offset) + mid, stack, w, n, Onto(stack, r), mid, Onto(stack, Cut(r, d)), post);
  }
}
