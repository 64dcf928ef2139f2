/** The code of every construct of LLL computes what the evaluator says. */
module LllRules {
  import opened Wrappers
  import opened Words
  import opened Instructions
  import opened Items
  import opened Machine
  import opened LllEval
  import opened LllCode

  /** An expression, its code, and how the tags of the code are renumbered where it is used. */
  datatype Child = Child(expr: Expr, items: seq<Item>, offset: nat)

  function Exprs(cs: seq<Child>): (es: seq<Expr>)
    ensures |es| == |cs|
  {
    seq(|cs|, i requires 0 <= i < |cs| => cs[i].expr)
  }

  ghost predicate Sound(c: Child) {
    Correct(c.expr, c.items)
  }

  ghost predicate AllSound(cs: seq<Child>) {
    forall i | 0 <= i < |cs| :: Sound(cs[i])
  }

  function Moved(c: Child, delta: nat): Child {
    c.(offset := c.offset + delta)
  }

  function AllMoved(cs: seq<Child>, delta: nat): (r: seq<Child>)
    ensures |r| == |cs|
  {
    seq(|cs|, i requires 0 <= i < |cs| => Moved(cs[i], delta))
  }

  lemma MovedFacts(cs: seq<Child>, delta: nat)
    ensures Exprs(AllMoved(cs, delta)) == Exprs(cs)
    ensures AllSound(cs) ==> AllSound(AllMoved(cs, delta))
    ensures cs != [] ==> AllMoved(cs, delta)[1..] == AllMoved(cs[1..], delta)
  {
    hide Correct;
    if AllSound(cs) {
      forall i | 0 <= i < |cs|
        ensures Sound(AllMoved(cs, delta)[i])
      {
        assert Sound(cs[i]);
      }
    }
  }

  function MovedTag(t: Word, delta: nat): Word {
    Wrap(t as int + delta)
  }

  /** All the code of a child. */
  function Whole(c: Child): seq<Item> {
    Shift(c.items, c.offset)
  }

  /** The code of a child, with all but the first d values discarded. */
  function Kept(c: Child, d: nat): seq<Item> {
    Whole(c) + Pops(if d <= Dep(c.expr) then Dep(c.expr) - d else 0)
  }

  lemma ShiftWhole(c: Child, delta: nat)
    ensures Shift(Whole(c), delta) == Whole(Moved(c, delta))
  {
    ShiftShift(c.items, c.offset, delta);
  }

  lemma ShiftKept(c: Child, d: nat, delta: nat)
    ensures Shift(Kept(c, d), delta) == Kept(Moved(c, delta), d)
  {
    hide Dep, Whole;
    var k := if d <= Dep(c.expr) then Dep(c.expr) - d else 0;
    ShiftConcat(Whole(c), Pops(k), delta);
    ShiftWhole(c, delta);
    assert Shift(Pops(k), delta) == Pops(k);
  }

  lemma ShiftJumps(t: Word, delta: nat)
    ensures Shift(JumpCode(t), delta) == JumpCode(MovedTag(t, delta))
    ensures Shift(JumpICode(t), delta) == JumpICode(MovedTag(t, delta))
    ensures Shift([Tag(t)], delta) == [Tag(MovedTag(t, delta))]
  {
  }

  /** A child at its place. */
  lemma SimWhole(c: Child, env: Env, prog: seq<Item>, pre: seq<Item>, post: seq<Item>, stack: seq<Word>, w: World, n: nat)
    requires Sound(c) && Good(env, prog) && prog == pre + Whole(c) + post
    ensures var r := Eval(env, c.expr, w, n);
            && (r.Val? ==> |r.vals| == Dep(c.expr))
            && Sim(env, prog, Whole(c) + post, stack, w, n, Onto(stack, r), post)
  {
    hide Eval, Sim, Good, Correct, Shift;
    UseCorrect(c.expr, c.items, c.offset, env, prog, pre, post, stack, w, n);
  }

  lemma SimKept(c: Child, d: nat, env: Env, prog: seq<Item>, pre: seq<Item>, post: seq<Item>, stack: seq<Word>, w: World, n: nat)
    requires Sound(c) && Good(env, prog) && d <= Dep(c.expr) && prog == pre + Kept(c, d) + post
    ensures var r := Cut(Eval(env, c.expr, w, n), d);
            && (r.Val? ==> |r.vals| == d)
            && Sim(env, prog, Kept(c, d) + post, stack, w, n, Onto(stack, r), post)
  {
    hide Eval, Sim, Good, Correct, Shift, Pops, Dep;
    var k := Dep(c.expr) - d;
    assert pre + Kept(c, d) + post == pre + Shift(c.items, c.offset) + Pops(k) + post;
    UseKept(c.expr, c.items, c.offset, d, env, prog, pre, post, stack, w, n);
  }

  // ----- arguments -----

  /** The code of all arguments, the last one first. */
  function ArgsCode(cs: seq<Child>): seq<Item> {
    if cs == [] then [] else ArgsCode(cs[1..]) + Kept(cs[0], 1)
  }

  ghost predicate HaveValue(cs: seq<Child>) {
    forall i | 0 <= i < |cs| :: Dep(cs[i].expr) >= 1
  }

  function Reversed(s: seq<Word>): seq<Word> {
    seq(|s|, i requires 0 <= i < |s| => s[|s| - 1 - i])
  }

  /** The values as they are on the stack: the first one topmost. */
  function OntoReversed(stack: seq<Word>, r: Res): Res {
    if r.Val? then r.(vals := stack + Reversed(r.vals)) else r
  }

  lemma {:induction false} ShiftArgs(cs: seq<Child>, delta: nat)
    ensures Shift(ArgsCode(cs), delta) == ArgsCode(AllMoved(cs, delta))
  {
    if cs != [] {
      MovedFacts(cs, delta);
      ShiftConcat(ArgsCode(cs[1..]), Kept(cs[0], 1), delta);
      ShiftArgs(cs[1..], delta);
      ShiftKept(cs[0], 1, delta);
    }
  }

  lemma {:induction false} SimArgs(cs: seq<Child>, env: Env, prog: seq<Item>, pre: seq<Item>, post: seq<Item>, stack: seq<Word>, w: World, n: nat)
    requires AllSound(cs) && HaveValue(cs) && Good(env, prog) && prog == pre + ArgsCode(cs) + post
    ensures Sim(env, prog, ArgsCode(cs) + post, stack, w, n, OntoReversed(stack, EvalArgs(env, Exprs(cs), w, n)), post)
  {
    hide Eval, Sim, Good, Correct, Kept, Dep;
    if cs == [] {
      assert [] + post == post && stack + Reversed([]) == stack;
      SimNothing(env, prog, post, stack, w, n);
    } else {
      var c, rest := cs[0], cs[1..];
      assert Sound(c) && Dep(c.expr) >= 1;
      assert Exprs(cs)[0] == c.expr && Exprs(cs)[1..] == Exprs(rest);
      TailSound(cs);
      var mid := Kept(c, 1) + post;
      assert prog == pre + ArgsCode(rest) + mid;
      assert ArgsCode(cs) + post == ArgsCode(rest) + mid;
      SimArgs(rest, env, prog, pre, mid, stack, w, n);
      var r := EvalArgs(env, Exprs(rest), w, n);
      var full := EvalArgs(env, Exprs(cs), w, n);
      if r.Val? {
        var s := stack + Reversed(r.vals);
        SimKept(c, 1, env, prog, pre + ArgsCode(rest), post, s, r.world, n);
        var v := Cut(Eval(env, c.expr, r.world, n), 1);
        if v.Val? {
          assert s + v.vals == stack + Reversed(v.vals + r.vals);
        }
      }
      SimThen(env, prog, ArgsCode(rest) + mid, stack, w, n, OntoReversed(stack, r), mid, OntoReversed(stack, full), post);
    }
  }

  lemma TailSound(cs: seq<Child>)
    requires AllSound(cs) && cs != []
    ensures AllSound(cs[1..])
    ensures HaveValue(cs) ==> HaveValue(cs[1..])
  {
    hide Sound, Dep;
    forall i | 0 <= i < |cs[1..]|
      ensures Sound(cs[1..][i])
      ensures HaveValue(cs) ==> Dep(cs[1..][i].expr) >= 1
    {
      assert cs[1..][i] == cs[i + 1];
    }
  }

  lemma ReversedArgs(stack: seq<Word>, vs: seq<Word>)
    ensures Args(stack + Reversed(vs), |vs|) == vs
    ensures Drop(stack + Reversed(vs), |vs|) == stack
  {
  }

  // ----- functions -----

  lemma SimInstr(cs: seq<Child>, op: Opcode, env: Env, prog: seq<Item>, pre: seq<Item>, post: seq<Item>, stack: seq<Word>, w: World, n: nat)
    requires AllSound(cs) && HaveValue(cs) && IsFunctional(op) && |cs| == ArgCount(op)
    requires Good(env, prog) && prog == pre + ArgsCode(cs) + [Operation(op)] + post
    ensures var r := Eval(env, Node(Instr(op), Exprs(cs)), w, n);
            && (r.Val? ==> |r.vals| == RetCount(op))
            && Sim(env, prog, ArgsCode(cs) + [Operation(op)] + post, stack, w, n, Onto(stack, r), post)
  {
    hide EvalArgs, Sim, Good, Correct, Dep, ArgsCode, ArgCount, RetCount, Exec, ExecItem, Reversed, ExecOperation, IsFunctional;
    var mid := [Operation(op)] + post;
    assert prog == pre + ArgsCode(cs) + mid;
    assert ArgsCode(cs) + [Operation(op)] + post == ArgsCode(cs) + mid;
    SimArgs(cs, env, prog, pre, mid, stack, w, n);
    var r := EvalArgs(env, Exprs(cs), w, n);
    var full := Eval(env, Node(Instr(op), Exprs(cs)), w, n);
    if r.Val? {
      var s := stack + Reversed(r.vals);
      ReversedArgs(stack, r.vals);
      ReversedLength(r.vals);
      FunctionalPlain(op);
      ExecPlain(env, op, s, r.world);
      ExecOne(env, Operation(op), s, r.world);
      FunctionalResult(env, op, r.vals, stack, r.world);
      if Exec(env, [Operation(op)], s, r.world).Next? {
        SimExec(env, prog, [Operation(op)], post, s, r.world, n);
      } else {
        SimHalt(env, prog, [Operation(op)], post, s, r.world, n);
      }
    }
    SimThen(env, prog, ArgsCode(cs) + mid, stack, w, n, OntoReversed(stack, r), mid, Onto(stack, full), post);
  }

  lemma ReversedLength(vs: seq<Word>)
    ensures |Reversed(vs)| == |vs|
  {
  }

  lemma FunctionalPlain(op: Opcode)
    requires IsFunctional(op)
    ensures IsValidInstruction(op) && !IsDup(op) && !IsSwap(op)
  {
  }

  /** A function either leaves its results or ends the run. */
  lemma FunctionalResult(env: Env, op: Opcode, args: seq<Word>, below: seq<Word>, w: World)
    requires IsFunctional(op)
    ensures var r, r' := ExecOperation(env, op, args, [], w), ExecOperation(env, op, args, below, w);
            || (r.Next? && r' == Next(below + r.stack, r.world) && |r.stack| == RetCount(op))
            || (r.Halt? && r'.Halt? && r'.status == r.status && r'.output == r.output && r'.world == r.world)
  {
    hide PureValue, Load, Store, ReadBytes, HasSideEffects, ArgCount;
    assert below + [] == below;
    RetCounts(op);
  }

  lemma RetCounts(op: Opcode)
    requires IsFunctional(op)
    ensures RetCount(op) <= 1
    ensures op == POP || op == JUMPDEST || op == SSTORE || op == MSTORE ==> RetCount(op) == 0
    ensures op == SLOAD || op == MLOAD ==> RetCount(op) == 1
  {
  }

  /** The same operation k times. */
  function Repeated(op: Opcode, k: nat): seq<Item> {
    seq(k, i => Operation(op))
  }

  /** Applying an operation again and again to the two topmost values folds them from the left. */
  lemma {:induction false} ExecFold(env: Env, op: Opcode, x: Word, xs: seq<Word>, stack: seq<Word>, w: World)
    requires IsArithmetic(op) && ArgCount(op) == 2
    ensures Exec(env, Repeated(op, |xs|), stack + Reversed(xs) + [x], w) == Next(stack + [FoldLeft(op, x, xs)], w)
    decreases |xs|
  {
    hide ExecItem, IsArithmetic, ArgCount, Arithmetic;
    var s := stack + Reversed(xs) + [x];
    if xs == [] {
      assert Repeated(op, 0) == [] && s == stack + [x];
    } else {
      var rest := xs[1..];
      assert Repeated(op, |xs|)[0] == Operation(op) && Repeated(op, |xs|)[1..] == Repeated(op, |rest|);
      ExecBinary(env, op, s, w);
      assert s[|s| - 1] == x && s[|s| - 2] == xs[0];
      var y := Binary(op, x, xs[0]);
      assert Drop(s, 2) + [y] == stack + Reversed(rest) + [y];
      ExecFold(env, op, y, rest, stack, w);
    }
  }

  lemma ArithFacts(op: Opcode)
    ensures IsArith(op) || IsCompare(op) ==> IsArithmetic(op) && ArgCount(op) == 2
    ensures IsUnary(op) ==> IsArithmetic(op) && ArgCount(op) == 1
    ensures IsArithmetic(ISZERO) && ArgCount(ISZERO) == 1
  {
  }

  lemma SimArith(cs: seq<Child>, op: Opcode, env: Env, prog: seq<Item>, pre: seq<Item>, post: seq<Item>, stack: seq<Word>, w: World, n: nat)
    requires AllSound(cs) && HaveValue(cs) && IsArith(op) && cs != []
    requires Good(env, prog) && prog == pre + ArgsCode(cs) + Repeated(op, |cs| - 1) + post
    ensures var r := Eval(env, Node(Arith(op), Exprs(cs)), w, n);
            && (r.Val? ==> |r.vals| == 1)
            && Sim(env, prog, ArgsCode(cs) + Repeated(op, |cs| - 1) + post, stack, w, n, Onto(stack, r), post)
  {
    hide EvalArgs, Sim, Good, Correct, Dep, ArgsCode, Exec, FoldLeft, Repeated, IsArith, IsArithmetic;
    var ops := Repeated(op, |cs| - 1);
    var mid := ops + post;
    assert prog == pre + ArgsCode(cs) + mid;
    assert ArgsCode(cs) + ops + post == ArgsCode(cs) + mid;
    SimArgs(cs, env, prog, pre, mid, stack, w, n);
    var r := EvalArgs(env, Exprs(cs), w, n);
    var full := Eval(env, Node(Arith(op), Exprs(cs)), w, n);
    if r.Val? {
      var x, xs := r.vals[0], r.vals[1..];
      assert stack + Reversed(r.vals) == stack + Reversed(xs) + [x];
      ArithFacts(op);
      ExecFold(env, op, x, xs, stack, r.world);
      SimExec(env, prog, ops, post, stack + Reversed(r.vals), r.world, n);
    }
    SimThen(env, prog, ArgsCode(cs) + mid, stack, w, n, OntoReversed(stack, r), mid, Onto(stack, full), post);
  }

  function Negation(negated: bool): seq<Item> {
    if negated then [Operation(ISZERO)] else []
  }

  lemma ExecNegation(env: Env, negated: bool, v: Word, stack: seq<Word>, w: World)
    ensures Exec(env, Negation(negated), stack + [v], w) == Next(stack + [if negated then Bool(v == 0) else v], w)
  {
    hide ExecItem;
    if negated {
      var s := stack + [v];
      ExecOne(env, Operation(ISZERO), s, w);
      ArithFacts(ISZERO);
      ExecUnary(env, ISZERO, s, w);
      assert s[|s| - 1] == v && Drop(s, 1) == stack;
    }
  }

  lemma SimCompare(cs: seq<Child>, op: Opcode, negated: bool, env: Env, prog: seq<Item>, pre: seq<Item>, post: seq<Item>, stack: seq<Word>, w: World, n: nat)
    requires AllSound(cs) && HaveValue(cs) && IsCompare(op) && |cs| == 2
    requires Good(env, prog) && prog == pre + ArgsCode(cs) + ([Operation(op)] + Negation(negated)) + post
    ensures var r := Eval(env, Node(Compare(op, negated), Exprs(cs)), w, n);
            && (r.Val? ==> |r.vals| == 1)
            && Sim(env, prog, ArgsCode(cs) + ([Operation(op)] + Negation(negated)) + post, stack, w, n, Onto(stack, r), post)
  {
    hide EvalArgs, Sim, Good, Correct, Dep, ArgsCode, Exec, ExecItem, IsCompare, IsArithmetic, Negation, Arithmetic, ArgCount, Reversed;
    var ops := [Operation(op)] + Negation(negated);
    var mid := ops + post;
    assert prog == pre + ArgsCode(cs) + mid;
    assert ArgsCode(cs) + ops + post == ArgsCode(cs) + mid;
    SimArgs(cs, env, prog, pre, mid, stack, w, n);
    var r := EvalArgs(env, Exprs(cs), w, n);
    var full := Eval(env, Node(Compare(op, negated), Exprs(cs)), w, n);
    if r.Val? {
      var s := stack + Reversed(r.vals);
      ReversedTwo(stack, r.vals);
      ArithFacts(op);
      ExecConcat(env, [Operation(op)], Negation(negated), s, r.world);
      ExecOne(env, Operation(op), s, r.world);
      ExecBinary(env, op, s, r.world);
      ExecNegation(env, negated, Binary(op, r.vals[0], r.vals[1]), stack, r.world);
      SimExec(env, prog, ops, post, s, r.world, n);
    }
    SimThen(env, prog, ArgsCode(cs) + mid, stack, w, n, OntoReversed(stack, r), mid, Onto(stack, full), post);
  }

  lemma ReversedTwo(stack: seq<Word>, vs: seq<Word>)
    requires |vs| == 2
    ensures var s := stack + Reversed(vs);
            |s| >= 2 && s[|s| - 1] == vs[0] && s[|s| - 2] == vs[1] && Drop(s, 2) == stack
  {
  }

  lemma SimUnary(cs: seq<Child>, op: Opcode, env: Env, prog: seq<Item>, pre: seq<Item>, post: seq<Item>, stack: seq<Word>, w: World, n: nat)
    requires AllSound(cs) && HaveValue(cs) && IsUnary(op) && |cs| == 1
    requires Good(env, prog) && prog == pre + ArgsCode(cs) + [Operation(op)] + post
    ensures var r := Eval(env, Node(Unary(op), Exprs(cs)), w, n);
            && (r.Val? ==> |r.vals| == 1)
            && Sim(env, prog, ArgsCode(cs) + [Operation(op)] + post, stack, w, n, Onto(stack, r), post)
  {
    hide EvalArgs, Sim, Good, Correct, Dep, ArgsCode, Exec, ExecItem, IsUnary, IsArithmetic, Arithmetic, ArgCount;
    var mid := [Operation(op)] + post;
    assert prog == pre + ArgsCode(cs) + mid;
    assert ArgsCode(cs) + [Operation(op)] + post == ArgsCode(cs) + mid;
    SimArgs(cs, env, prog, pre, mid, stack, w, n);
    var r := EvalArgs(env, Exprs(cs), w, n);
    var full := Eval(env, Node(Unary(op), Exprs(cs)), w, n);
    if r.Val? {
      var s := stack + Reversed(r.vals);
      assert s == stack + [r.vals[0]] && Drop(s, 1) == stack;
      ArithFacts(op);
      ExecOne(env, Operation(op), s, r.world);
      ExecUnary(env, op, s, r.world);
      SimExec(env, prog, [Operation(op)], post, s, r.world, n);
    }
    SimThen(env, prog, ArgsCode(cs) + mid, stack, w, n, OntoReversed(stack, r), mid, Onto(stack, full), post);
  }

  // ----- sequences -----

  /** The code of a sequence: only the values of the last expression stay. */
  function SeqCode(cs: seq<Child>): seq<Item> {
    if cs == [] then []
    else if |cs| == 1 then Whole(cs[0])
    else Kept(cs[0], 0) + SeqCode(cs[1..])
  }

  lemma {:induction false} ShiftSeq(cs: seq<Child>, delta: nat)
    ensures Shift(SeqCode(cs), delta) == SeqCode(AllMoved(cs, delta))
  {
    hide Kept, Whole;
    if |cs| == 1 {
      ShiftWhole(cs[0], delta);
    } else if |cs| > 1 {
      MovedFacts(cs, delta);
      ShiftConcat(Kept(cs[0], 0), SeqCode(cs[1..]), delta);
      ShiftSeq(cs[1..], delta);
      ShiftKept(cs[0], 0, delta);
    }
  }

  lemma {:induction false} SimSeq(cs: seq<Child>, env: Env, prog: seq<Item>, pre: seq<Item>, post: seq<Item>, stack: seq<Word>, w: World, n: nat)
    requires AllSound(cs) && Good(env, prog) && prog == pre + SeqCode(cs) + post
    ensures var r := EvalSeq(env, Exprs(cs), w, n);
            && (r.Val? ==> |r.vals| == if cs == [] then 0 else Dep(cs[|cs| - 1].expr))
            && Sim(env, prog, SeqCode(cs) + post, stack, w, n, Onto(stack, r), post)
  {
    hide Eval, Sim, Good, Correct, Kept, Dep, Whole;
    if cs == [] {
      assert [] + post == post && stack + [] == stack;
      SimNothing(env, prog, post, stack, w, n);
    } else if |cs| == 1 {
      assert Sound(cs[0]);
      SimWhole(cs[0], env, prog, pre, post, stack, w, n);
    } else {
      var c, rest := cs[0], cs[1..];
      assert Sound(c);
      assert Exprs(cs)[0] == c.expr && Exprs(cs)[1..] == Exprs(rest);
      TailSound(cs);
      var mid := SeqCode(rest) + post;
      assert prog == pre + Kept(c, 0) + mid;
      assert SeqCode(cs) + post == Kept(c, 0) + mid;
      SimKept(c, 0, env, prog, pre, mid, stack, w, n);
      var r := Cut(Eval(env, c.expr, w, n), 0);
      var full := EvalSeq(env, Exprs(cs), w, n);
      if r.Val? {
        assert stack + r.vals == stack;
        assert prog == pre + Kept(c, 0) + SeqCode(rest) + post;
        SimSeq(rest, env, prog, pre + Kept(c, 0), post, stack, r.world, n);
        assert rest[|rest| - 1] == cs[|cs| - 1];
      }
      SimThen(env, prog, Kept(c, 0) + mid, stack, w, n, Onto(stack, r), mid, Onto(stack, full), post);
    }
  }

  /** The code of several expressions without their values. */
  function StepsCode(cs: seq<Child>): seq<Item> {
    if cs == [] then [] else Kept(cs[0], 0) + StepsCode(cs[1..])
  }

  lemma {:induction false} ShiftSteps(cs: seq<Child>, delta: nat)
    ensures Shift(StepsCode(cs), delta) == StepsCode(AllMoved(cs, delta))
  {
    hide Kept;
    if cs != [] {
      MovedFacts(cs, delta);
      ShiftConcat(Kept(cs[0], 0), StepsCode(cs[1..]), delta);
      ShiftSteps(cs[1..], delta);
      ShiftKept(cs[0], 0, delta);
    }
  }

  lemma {:induction false} SimSteps(whole: Expr, cs: seq<Child>, env: Env, prog: seq<Item>, pre: seq<Item>, post: seq<Item>, stack: seq<Word>, w: World, n: nat)
    requires AllSound(cs) && Good(env, prog) && prog == pre + StepsCode(cs) + post
    requires forall i | 0 <= i < |cs| :: Exprs(cs)[i] < whole
    ensures var r := EvalSteps(env, whole, Exprs(cs), w, n);
            && (r.Val? ==> r.vals == [])
            && Sim(env, prog, StepsCode(cs) + post, stack, w, n, Onto(stack, r), post)
    decreases |cs|
  {
    hide Eval, Sim, Good, Correct, Kept, Dep;
    if cs == [] {
      assert [] + post == post && stack + [] == stack;
      SimNothing(env, prog, post, stack, w, n);
    } else {
      var c, rest := cs[0], cs[1..];
      assert Sound(c);
      assert Exprs(cs)[0] == c.expr && Exprs(cs)[1..] == Exprs(rest);
      forall i | 0 <= i < |rest|
        ensures Exprs(rest)[i] < whole
      {
        assert Exprs(cs)[i + 1] < whole;
      }
      TailSound(cs);
      var mid := StepsCode(rest) + post;
      assert prog == pre + Kept(c, 0) + mid;
      assert StepsCode(cs) + post == Kept(c, 0) + mid;
      SimKept(c, 0, env, prog, pre, mid, stack, w, n);
      var r := Cut(Eval(env, c.expr, w, n), 0);
      var full := EvalSteps(env, whole, Exprs(cs), w, n);
      if r.Val? {
        assert stack + r.vals == stack;
        assert prog == pre + Kept(c, 0) + StepsCode(rest) + post;
        SimSteps(whole, rest, env, prog, pre + Kept(c, 0), post, stack, r.world, n);
      }
      SimThen(env, prog, Kept(c, 0) + mid, stack, w, n, Onto(stack, r), mid, Onto(stack, full), post);
    }
  }

  // ----- conditions -----

  /** A condition: exactly one value, possibly negated, and a jump to the tag if it is not zero. */
  function CondCode(c: Child, negated: bool, t: Word): seq<Item> {
    Whole(c) + Negation(negated) + JumpICode(t)
  }

  lemma ShiftCond(c: Child, negated: bool, t: Word, delta: nat)
    ensures Shift(CondCode(c, negated, t), delta) == CondCode(Moved(c, delta), negated, MovedTag(t, delta))
  {
    hide Whole;
    ShiftConcat(Whole(c) + Negation(negated), JumpICode(t), delta);
    ShiftConcat(Whole(c), Negation(negated), delta);
    ShiftWhole(c, delta);
    ShiftJumps(t, delta);
    assert Shift(Negation(negated), delta) == Negation(negated);
  }

  /** Whether the jump is taken for this value of the condition. */
  predicate Taken(v: Word, negated: bool) {
    (v != 0) != negated
  }

  /** Where control is after a condition. */
  lemma SimCond(c: Child, negated: bool, t: Word, env: Env, prog: seq<Item>, pre: seq<Item>, post: seq<Item>,
                front: seq<Item>, there: seq<Item>, stack: seq<Word>, w: World, n: nat)
    requires Sound(c) && Dep(c.expr) == 1 && Good(env, prog)
    requires prog == pre + CondCode(c, negated, t) + post && prog == front + [Tag(t)] + there
    ensures var r := EvalOne(env, c.expr, w, n);
            if r.Val? then
              Sim(env, prog, CondCode(c, negated, t) + post, stack, w, n, Val(stack, r.world), if Taken(r.vals[0], negated) then there else post)
            else Sim(env, prog, CondCode(c, negated, t) + post, stack, w, n, r, post)
  {
    hide Eval, Sim, Good, Correct, Dep, Whole, Exec, Negation, Run, ReachesIn;
    var jump := JumpICode(t) + post;
    var mid := Negation(negated) + jump;
    assert prog == pre + Whole(c) + mid;
    assert CondCode(c, negated, t) + post == Whole(c) + mid;
    SimWhole(c, env, prog, pre, mid, stack, w, n);
    var r := Eval(env, c.expr, w, n);
    assert EvalOne(env, c.expr, w, n) == r;
    if r.Val? {
      var v := r.vals[0];
      assert r.vals == [v];
      var x := if negated then Bool(v == 0) else v;
      ExecNegation(env, negated, v, stack, r.world);
      SimExec(env, prog, Negation(negated), jump, stack + [v], r.world, n);
      var target := if Taken(v, negated) then there else post;
      JumpIReaches(env, prog, post, stack, x, r.world, front, t, there);
      SimReached(env, prog, jump, stack + [x], r.world, target, stack, r.world, if Taken(v, negated) then 1 else 0, n);
      SimThen(env, prog, mid, stack + [v], r.world, n, Val(stack + [x], r.world), jump, Val(stack, r.world), target);
      SimThen(env, prog, Whole(c) + mid, stack, w, n, Onto(stack, r), mid, Val(stack, r.world), target);
    } else {
      SimThen(env, prog, Whole(c) + mid, stack, w, n, Onto(stack, r), mid, r, post);
    }
  }

  lemma SimReached(env: Env, prog: seq<Item>, rest: seq<Item>, stack: seq<Word>, w: World, there: seq<Item>, s: seq<Word>, w': World, j: nat, n: nat)
    requires ReachesIn(env, prog, rest, stack, w, there, s, w', j)
    ensures Sim(env, prog, rest, stack, w, n, Val(s, w'), there)
  {
    hide ReachesIn;
  }

  // ----- IF -----

  function IfCode(c: Child, a: Child, b: Child, d: nat, main: Word, end: Word): seq<Item> {
    CondCode(c, false, main) + Kept(b, d) + JumpCode(end) + [Tag(main)] + Kept(a, d) + [Tag(end)]
  }

  lemma ShiftIf(c: Child, a: Child, b: Child, d: nat, main: Word, end: Word, delta: nat)
    ensures Shift(IfCode(c, a, b, d, main, end), delta) ==
            IfCode(Moved(c, delta), Moved(a, delta), Moved(b, delta), d, MovedTag(main, delta), MovedTag(end, delta))
  {
    hide CondCode, Kept, Shift, JumpCode;
    var p1 := CondCode(c, false, main);
    var p2 := p1 + Kept(b, d);
    var p3 := p2 + JumpCode(end);
    var p4 := p3 + [Tag(main)];
    var p5 := p4 + Kept(a, d);
    ShiftConcat(p5, [Tag(end)], delta);
    ShiftConcat(p4, Kept(a, d), delta);
    ShiftConcat(p3, [Tag(main)], delta);
    ShiftConcat(p2, JumpCode(end), delta);
    ShiftConcat(p1, Kept(b, d), delta);
    ShiftCond(c, false, main, delta);
    ShiftKept(a, d, delta);
    ShiftKept(b, d, delta);
    ShiftJumps(main, delta);
    ShiftJumps(end, delta);
  }

  lemma SimIf(c: Child, a: Child, b: Child, main: Word, end: Word, env: Env, prog: seq<Item>, pre: seq<Item>, post: seq<Item>, stack: seq<Word>, w: World, n: nat)
    requires Sound(c) && Sound(a) && Sound(b) && Dep(c.expr) == 1 && Good(env, prog)
    requires prog == pre + IfCode(c, a, b, Min(Dep(a.expr), Dep(b.expr)), main, end) + post
    ensures var d := Min(Dep(a.expr), Dep(b.expr));
            var r := Eval(env, Node(If, [c.expr, a.expr, b.expr]), w, n);
            && (r.Val? ==> |r.vals| == d)
            && Sim(env, prog, IfCode(c, a, b, d, main, end) + post, stack, w, n, Onto(stack, r), post)
  {
    hide Sim, Good, Correct, Kept, CondCode, JumpCode, Eval, EvalOne, Dep;
    var d := Min(Dep(a.expr), Dep(b.expr));
    var e := Node(If, [c.expr, a.expr, b.expr]);
    IfMeaning(env, c.expr, a.expr, b.expr, w, n);
    var cond := CondCode(c, false, main);
    var atEnd := [Tag(end)] + post;
    var there := Kept(a, d) + atEnd;
    var other := Kept(b, d) + (JumpCode(end) + ([Tag(main)] + there));
    assert IfCode(c, a, b, d, main, end) + post == cond + other;
    assert prog == pre + cond + other;
    var front := pre + cond + Kept(b, d) + JumpCode(end);
    assert prog == front + [Tag(main)] + there;
    var before := front + [Tag(main)] + Kept(a, d);
    assert prog == before + [Tag(end)] + post;
    SimCond(c, false, main, env, prog, pre, other, front, there, stack, w, n);
    var r := EvalOne(env, c.expr, w, n);
    var full := Eval(env, e, w, n);
    if !r.Val? {
      SimThen(env, prog, cond + other, stack, w, n, r, other, r, post);
    } else if r.vals[0] != 0 {
      var x := Cut(Eval(env, a.expr, r.world, n), d);
      assert prog == (front + [Tag(main)]) + Kept(a, d) + atEnd;
      SimKept(a, d, env, prog, front + [Tag(main)], atEnd, stack, r.world, n);
      if x.Val? {
        SimTag(env, prog, end, post, stack + x.vals, x.world, n);
      }
      SimThen(env, prog, there, stack, r.world, n, Onto(stack, x), atEnd, Onto(stack, full), post);
      SimThen(env, prog, cond + other, stack, w, n, Val(stack, r.world), there, Onto(stack, full), post);
    } else {
      var x := Cut(Eval(env, b.expr, r.world, n), d);
      var mid := JumpCode(end) + ([Tag(main)] + there);
      assert prog == (pre + cond) + Kept(b, d) + mid;
      SimKept(b, d, env, prog, pre + cond, mid, stack, r.world, n);
      if x.Val? {
        SimJump(env, prog, [Tag(main)] + there, stack + x.vals, x.world, n, before, end, post);
      }
      SimThen(env, prog, other, stack, r.world, n, Onto(stack, x), mid, Onto(stack, full), post);
      SimThen(env, prog, cond + other, stack, w, n, Val(stack, r.world), other, Onto(stack, full), post);
    }
  }

  lemma IfMeaning(env: Env, c: Expr, a: Expr, b: Expr, w: World, n: nat)
    ensures Dep(Node(If, [c, a, b])) == Min(Dep(a), Dep(b))
    ensures var r := EvalOne(env, c, w, n);
            var d := Min(Dep(a), Dep(b));
            Eval(env, Node(If, [c, a, b]), w, n) ==
            if !r.Val? then r else if r.vals[0] != 0 then Cut(Eval(env, a, r.world, n), d) else Cut(Eval(env, b, r.world, n), d)
  {
    var args := [c, a, b];
    assert args[0] == c && args[1] == a && args[2] == b;
  }

  // ----- WHEN and UNLESS -----

  function WhenCode(c: Child, a: Child, negated: bool, end: Word): seq<Item> {
    CondCode(c, negated, end) + Kept(a, 0) + [Tag(end)]
  }

  lemma ShiftWhen(c: Child, a: Child, negated: bool, end: Word, delta: nat)
    ensures Shift(WhenCode(c, a, negated, end), delta) == WhenCode(Moved(c, delta), Moved(a, delta), negated, MovedTag(end, delta))
  {
    hide CondCode, Kept, Shift;
    ShiftConcat(CondCode(c, negated, end) + Kept(a, 0), [Tag(end)], delta);
    ShiftConcat(CondCode(c, negated, end), Kept(a, 0), delta);
    ShiftCond(c, negated, end, delta);
    ShiftKept(a, 0, delta);
    ShiftJumps(end, delta);
  }

  lemma SimWhen(c: Child, a: Child, negated: bool, end: Word, env: Env, prog: seq<Item>, pre: seq<Item>, post: seq<Item>, stack: seq<Word>, w: World, n: nat)
    requires Sound(c) && Sound(a) && Dep(c.expr) == 1 && Good(env, prog)
    requires prog == pre + WhenCode(c, a, negated, end) + post
    ensures var r := Eval(env, Node(if negated then When else Unless, [c.expr, a.expr]), w, n);
            && (r.Val? ==> r.vals == [])
            && Sim(env, prog, WhenCode(c, a, negated, end) + post, stack, w, n, Onto(stack, r), post)
  {
    hide Sim, Good, Correct, Kept, CondCode, Eval, EvalOne, Dep;
    WhenMeaning(env, c.expr, a.expr, negated, w, n);
    var full := Eval(env, Node(if negated then When else Unless, [c.expr, a.expr]), w, n);
    var cond := CondCode(c, negated, end);
    var atEnd := [Tag(end)] + post;
    var body := Kept(a, 0) + atEnd;
    assert WhenCode(c, a, negated, end) + post == cond + body;
    assert prog == pre + cond + body;
    var front := pre + cond + Kept(a, 0);
    assert prog == front + [Tag(end)] + post;
    SimCond(c, negated, end, env, prog, pre, body, front, post, stack, w, n);
    var r := EvalOne(env, c.expr, w, n);
    if !r.Val? {
      SimThen(env, prog, cond + body, stack, w, n, r, body, r, post);
    } else if Taken(r.vals[0], negated) {
      assert stack + [] == stack;
    } else {
      var x := Cut(Eval(env, a.expr, r.world, n), 0);
      assert prog == (pre + cond) + Kept(a, 0) + atEnd;
      SimKept(a, 0, env, prog, pre + cond, atEnd, stack, r.world, n);
      if x.Val? {
        SimTag(env, prog, end, post, stack + x.vals, x.world, n);
      }
      SimThen(env, prog, body, stack, r.world, n, Onto(stack, x), atEnd, Onto(stack, full), post);
      SimThen(env, prog, cond + body, stack, w, n, Val(stack, r.world), body, Onto(stack, full), post);
    }
  }

  lemma WhenMeaning(env: Env, c: Expr, a: Expr, negated: bool, w: World, n: nat)
    ensures var r := EvalOne(env, c, w, n);
            Eval(env, Node(if negated then When else Unless, [c, a]), w, n) ==
            if !r.Val? then r else if Taken(r.vals[0], negated) then Val([], r.world) else Cut(Eval(env, a, r.world, n), 0)
  {
    var args := [c, a];
    assert args[0] == c && args[1] == a;
  }

  // ----- loops -----

  function LoopCode(c: Child, whileTrue: bool, steps: seq<Child>, begin: Word, end: Word): seq<Item> {
    [Tag(begin)] + CondCode(c, whileTrue, end) + StepsCode(steps) + JumpCode(begin) + [Tag(end)]
  }

  lemma ShiftLoop(c: Child, whileTrue: bool, steps: seq<Child>, begin: Word, end: Word, delta: nat)
    ensures Shift(LoopCode(c, whileTrue, steps, begin, end), delta) ==
            LoopCode(Moved(c, delta), whileTrue, AllMoved(steps, delta), MovedTag(begin, delta), MovedTag(end, delta))
  {
    hide CondCode, StepsCode, Shift, JumpCode;
    var p1 := [Tag(begin)];
    var p2 := p1 + CondCode(c, whileTrue, end);
    var p3 := p2 + StepsCode(steps);
    var p4 := p3 + JumpCode(begin);
    ShiftConcat(p4, [Tag(end)], delta);
    ShiftConcat(p3, JumpCode(begin), delta);
    ShiftConcat(p2, StepsCode(steps), delta);
    ShiftConcat(p1, CondCode(c, whileTrue, end), delta);
    ShiftCond(c, whileTrue, end, delta);
    ShiftSteps(steps, delta);
    ShiftJumps(begin, delta);
    ShiftJumps(end, delta);
  }

  /** The loop from behind its first tag, by induction on the number of iterations. */
  lemma {:induction false} SimIterate(whole: Expr, c: Child, whileTrue: bool, steps: seq<Child>, begin: Word, end: Word,
                                      env: Env, prog: seq<Item>, pre: seq<Item>, post: seq<Item>, stack: seq<Word>, w: World, n: nat)
    requires Sound(c) && AllSound(steps) && Dep(c.expr) == 1 && Good(env, prog)
    requires c.expr < whole && forall i | 0 <= i < |steps| :: Exprs(steps)[i] < whole
    requires prog == pre + LoopCode(c, whileTrue, steps, begin, end) + post
    ensures var r := EvalLoop(env, whole, c.expr, whileTrue, Exprs(steps), w, n);
            && (r.Val? ==> r.vals == [])
            && Sim(env, prog, CondCode(c, whileTrue, end) + (StepsCode(steps) + (JumpCode(begin) + ([Tag(end)] + post))), stack, w, n, Onto(stack, r), post)
    decreases n
  {
    hide Good, Correct, CondCode, StepsCode, JumpCode, Eval, EvalOne, EvalSteps, Dep, Exprs, ReachesIn, EndsIn, Run;
    var cond := CondCode(c, whileTrue, end);
    var atEnd := [Tag(end)] + post;
    var jump := JumpCode(begin) + atEnd;
    var body := StepsCode(steps) + jump;
    var inner := cond + body;
    assert prog == (pre + [Tag(begin)]) + cond + body;
    assert prog == pre + [Tag(begin)] + inner;
    var front := pre + [Tag(begin)] + cond + StepsCode(steps) + JumpCode(begin);
    assert prog == front + [Tag(end)] + post;
    var full := EvalLoop(env, whole, c.expr, whileTrue, Exprs(steps), w, n);
    if n > 0 {
      SimCond(c, whileTrue, end, env, prog, pre + [Tag(begin)], body, front, post, stack, w, n);
      var r := EvalOne(env, c.expr, w, n);
      if !r.Val? {
        SimThen(env, prog, inner, stack, w, n, r, body, r, post);
      } else if Taken(r.vals[0], whileTrue) {
        assert stack + [] == stack;
      } else {
        assert prog == (pre + [Tag(begin)] + cond) + StepsCode(steps) + jump;
        SimSteps(whole, steps, env, prog, pre + [Tag(begin)] + cond, jump, stack, r.world, n);
        var x := EvalSteps(env, whole, Exprs(steps), r.world, n);
        if x.Val? {
          assert stack + x.vals == stack;
          JumpReaches(env, prog, atEnd, stack, x.world, pre, begin, inner);
          SimIterate(whole, c, whileTrue, steps, begin, end, env, prog, pre, post, stack, x.world, n - 1);
          SimAfter(env, prog, jump, stack, x.world, inner, stack, x.world, 1, n, n - 1, Onto(stack, full), post);
        }
        SimThen(env, prog, body, stack, r.world, n, Onto(stack, x), jump, Onto(stack, full), post);
        SimThen(env, prog, inner, stack, w, n, Val(stack, r.world), body, Onto(stack, full), post);
      }
    }
  }

  lemma SimLoop(whole: Expr, c: Child, whileTrue: bool, steps: seq<Child>, begin: Word, end: Word,
                env: Env, prog: seq<Item>, pre: seq<Item>, post: seq<Item>, stack: seq<Word>, w: World, n: nat)
    requires Sound(c) && AllSound(steps) && Dep(c.expr) == 1 && Good(env, prog)
    requires c.expr < whole && forall i | 0 <= i < |steps| :: Exprs(steps)[i] < whole
    requires prog == pre + LoopCode(c, whileTrue, steps, begin, end) + post
    ensures var r := EvalLoop(env, whole, c.expr, whileTrue, Exprs(steps), w, n);
            && (r.Val? ==> r.vals == [])
            && Sim(env, prog, LoopCode(c, whileTrue, steps, begin, end) + post, stack, w, n, Onto(stack, r), post)
  {
    hide Sim, Good, Correct, CondCode, StepsCode, JumpCode, EvalLoop, Dep, Exprs;
    var inner := CondCode(c, whileTrue, end) + (StepsCode(steps) + (JumpCode(begin) + ([Tag(end)] + post)));
    assert LoopCode(c, whileTrue, steps, begin, end) + post == [Tag(begin)] + inner;
    SimTag(env, prog, begin, inner, stack, w, n);
    SimIterate(whole, c, whileTrue, steps, begin, end, env, prog, pre, post, stack, w, n);
    var r := EvalLoop(env, whole, c.expr, whileTrue, Exprs(steps), w, n);
    SimThen(env, prog, [Tag(begin)] + inner, stack, w, n, Val(stack, w), inner, Onto(stack, r), post);
  }

  lemma WhileMeaning(env: Env, c: Expr, a: Expr, whileTrue: bool, w: World, n: nat)
    ensures var e := Node(if whileTrue then While else Until, [c, a]);
            c < e && [a][0] < e && Eval(env, e, w, n) == EvalLoop(env, e, c, whileTrue, [a], w, n)
  {
    var e := Node(if whileTrue then While else Until, [c, a]);
    assert e.args[0] == c && e.args[1] == a && e.args[1..] == [a];
  }

  lemma SimWhile(c: Child, a: Child, whileTrue: bool, begin: Word, end: Word, env: Env, prog: seq<Item>, pre: seq<Item>, post: seq<Item>, stack: seq<Word>, w: World, n: nat)
    requires Sound(c) && Sound(a) && Dep(c.expr) == 1 && Good(env, prog)
    requires prog == pre + LoopCode(c, whileTrue, [a], begin, end) + post
    ensures var r := Eval(env, Node(if whileTrue then While else Until, [c.expr, a.expr]), w, n);
            && (r.Val? ==> r.vals == [])
            && Sim(env, prog, LoopCode(c, whileTrue, [a], begin, end) + post, stack, w, n, Onto(stack, r), post)
  {
    hide Sim, Good, Correct, LoopCode, EvalLoop, Eval, Dep;
    WhileMeaning(env, c.expr, a.expr, whileTrue, w, n);
    var e := Node(if whileTrue then While else Until, [c.expr, a.expr]);
    assert Exprs([a]) == [a.expr];
    SimLoop(e, c, whileTrue, [a], begin, end, env, prog, pre, post, stack, w, n);
  }

  function ForCode(init: Child, c: Child, step: Child, body: Child, begin: Word, end: Word): seq<Item> {
    Kept(init, 0) + LoopCode(c, true, [body, step], begin, end)
  }

  lemma ShiftFor(init: Child, c: Child, step: Child, body: Child, begin: Word, end: Word, delta: nat)
    ensures Shift(ForCode(init, c, step, body, begin, end), delta) ==
            ForCode(Moved(init, delta), Moved(c, delta), Moved(step, delta), Moved(body, delta), MovedTag(begin, delta), MovedTag(end, delta))
  {
    hide Kept, LoopCode, Shift;
    ShiftConcat(Kept(init, 0), LoopCode(c, true, [body, step], begin, end), delta);
    ShiftKept(init, 0, delta);
    ShiftLoop(c, true, [body, step], begin, end, delta);
    assert AllMoved([body, step], delta) == [Moved(body, delta), Moved(step, delta)];
  }

  lemma ForMeaning(env: Env, init: Expr, c: Expr, step: Expr, body: Expr, w: World, n: nat)
    ensures var e := Node(For, [init, c, step, body]);
            var r := Cut(Eval(env, init, w, n), 0);
            && c < e && [body, step][0] < e && [body, step][1] < e
            && Eval(env, e, w, n) == if r.Val? then EvalLoop(env, e, c, true, [body, step], r.world, n) else r
  {
    var e := Node(For, [init, c, step, body]);
    assert e.args[0] == init && e.args[1] == c && e.args[2] == step && e.args[3] == body;
  }

  lemma SimFor(init: Child, c: Child, step: Child, body: Child, begin: Word, end: Word, env: Env, prog: seq<Item>, pre: seq<Item>, post: seq<Item>, stack: seq<Word>, w: World, n: nat)
    requires Sound(init) && Sound(c) && Sound(step) && Sound(body) && Dep(c.expr) == 1 && Good(env, prog)
    requires prog == pre + ForCode(init, c, step, body, begin, end) + post
    ensures var r := Eval(env, Node(For, [init.expr, c.expr, step.expr, body.expr]), w, n);
            && (r.Val? ==> r.vals == [])
            && Sim(env, prog, ForCode(init, c, step, body, begin, end) + post, stack, w, n, Onto(stack, r), post)
  {
    hide Sim, Good, Correct, LoopCode, EvalLoop, Eval, Dep, Kept;
    ForMeaning(env, init.expr, c.expr, step.expr, body.expr, w, n);
    var e := Node(For, [init.expr, c.expr, step.expr, body.expr]);
    assert Exprs([body, step]) == [body.expr, step.expr];
    var loop := LoopCode(c, true, [body, step], begin, end);
    var mid := loop + post;
    assert ForCode(init, c, step, body, begin, end) + post == Kept(init, 0) + mid;
    assert prog == pre + Kept(init, 0) + mid;
    SimKept(init, 0, env, prog, pre, mid, stack, w, n);
    var r := Cut(Eval(env, init.expr, w, n), 0);
    var full := Eval(env, e, w, n);
    if r.Val? {
      assert stack + r.vals == stack;
      assert prog == (pre + Kept(init, 0)) + loop + post;
      SimLoop(e, c, true, [body, step], begin, end, env, prog, pre + Kept(init, 0), post, stack, r.world, n);
    }
    SimThen(env, prog, Kept(init, 0) + mid, stack, w, n, Onto(stack, r), mid, Onto(stack, full), post);
  }

  // ----- && and || -----

  /** All arguments but the last jump to the end with the prepared value on the stack; the last one
      replaces it. */
  function ShortTail(cs: seq<Child>, stopAt: bool, end: Word): seq<Item>
    requires cs != []
  {
    if |cs| == 1 then [Operation(POP)] + Kept(cs[0], 1)
    else CondCode(cs[0], !stopAt, end) + ShortTail(cs[1..], stopAt, end)
  }

  function ShortCode(cs: seq<Child>, stopAt: bool, end: Word): seq<Item>
    requires cs != []
  {
    (if |cs| == 1 then Kept(cs[0], 1) else [Push(Bool(stopAt))] + ShortTail(cs, stopAt, end)) + [Tag(end)]
  }

  ghost predicate OneValueEach(cs: seq<Child>) {
    forall i | 0 <= i < |cs| :: Dep(cs[i].expr) == 1
  }

  lemma {:induction false} ShiftShortTail(cs: seq<Child>, stopAt: bool, end: Word, delta: nat)
    requires cs != []
    ensures Shift(ShortTail(cs, stopAt, end), delta) == ShortTail(AllMoved(cs, delta), stopAt, MovedTag(end, delta))
  {
    hide CondCode, Kept;
    MovedFacts(cs, delta);
    if |cs| == 1 {
      ShiftConcat([Operation(POP)], Kept(cs[0], 1), delta);
      ShiftKept(cs[0], 1, delta);
      assert Shift([Operation(POP)], delta) == [Operation(POP)];
    } else {
      ShiftConcat(CondCode(cs[0], !stopAt, end), ShortTail(cs[1..], stopAt, end), delta);
      ShiftCond(cs[0], !stopAt, end, delta);
      ShiftShortTail(cs[1..], stopAt, end, delta);
    }
  }

  lemma ShiftShort(cs: seq<Child>, stopAt: bool, end: Word, delta: nat)
    requires cs != []
    ensures Shift(ShortCode(cs, stopAt, end), delta) == ShortCode(AllMoved(cs, delta), stopAt, MovedTag(end, delta))
  {
    hide Kept, ShortTail;
    ShiftJumps(end, delta);
    if |cs| == 1 {
      ShiftConcat(Kept(cs[0], 1), [Tag(end)], delta);
      ShiftKept(cs[0], 1, delta);
    } else {
      var push := [Push(Bool(stopAt))];
      ShiftConcat(push + ShortTail(cs, stopAt, end), [Tag(end)], delta);
      ShiftConcat(push, ShortTail(cs, stopAt, end), delta);
      ShiftShortTail(cs, stopAt, end, delta);
      assert Shift(push, delta) == push;
    }
  }

  lemma {:induction false} SimShortTail(cs: seq<Child>, stopAt: bool, end: Word, env: Env, prog: seq<Item>, pre: seq<Item>, post: seq<Item>, stack: seq<Word>, w: World, n: nat)
    requires AllSound(cs) && OneValueEach(cs) && cs != [] && Good(env, prog)
    requires prog == pre + ShortTail(cs, stopAt, end) + ([Tag(end)] + post)
    ensures var r := EvalShort(env, Exprs(cs), stopAt, w, n);
            && (r.Val? ==> |r.vals| == 1)
            && Sim(env, prog, ShortTail(cs, stopAt, end) + ([Tag(end)] + post), stack + [Bool(stopAt)], w, n, Onto(stack, r), post)
    decreases |cs|
  {
    hide Sim, Good, Correct, CondCode, Kept, Eval, EvalOne, Dep, Exec;
    var c := cs[0];
    assert Sound(c) && Dep(c.expr) == 1;
    assert Exprs(cs)[0] == c.expr && Exprs(cs)[1..] == Exprs(cs[1..]);
    var atEnd := [Tag(end)] + post;
    var full := EvalShort(env, Exprs(cs), stopAt, w, n);
    var s := stack + [Bool(stopAt)];
    if |cs| == 1 {
      var pop, mid := [Operation(POP)], Kept(c, 1) + atEnd;
      assert ShortTail(cs, stopAt, end) + atEnd == pop + mid;
      ExecOne(env, Operation(POP), s, w);
      ExecPop(env, s, w);
      assert Drop(s, 1) == stack;
      SimExec(env, prog, pop, mid, s, w, n);
      assert prog == (pre + pop) + Kept(c, 1) + atEnd;
      SimKept(c, 1, env, prog, pre + pop, atEnd, stack, w, n);
      OneKept(env, c.expr, w, n);
      SimWholeLength(c, env, prog, pre + pop, atEnd, stack, w, n);
      if full.Val? {
        SimTag(env, prog, end, post, stack + full.vals, full.world, n);
      }
      SimThen(env, prog, mid, stack, w, n, Onto(stack, full), atEnd, Onto(stack, full), post);
      SimThen(env, prog, pop + mid, s, w, n, Val(stack, w), mid, Onto(stack, full), post);
    } else {
      var cond, rest := CondCode(c, !stopAt, end), ShortTail(cs[1..], stopAt, end) + atEnd;
      assert ShortTail(cs, stopAt, end) + atEnd == cond + rest;
      assert prog == pre + cond + rest;
      var front := pre + cond + ShortTail(cs[1..], stopAt, end);
      assert prog == front + [Tag(end)] + post;
      SimCond(c, !stopAt, end, env, prog, pre, rest, front, post, s, w, n);
      var r := EvalOne(env, c.expr, w, n);
      if !r.Val? {
        SimThen(env, prog, cond + rest, s, w, n, r, rest, r, post);
      } else if !Taken(r.vals[0], !stopAt) {
        TailSound(cs);
        TailOne(cs);
        assert prog == (pre + cond) + ShortTail(cs[1..], stopAt, end) + atEnd;
        SimShortTail(cs[1..], stopAt, end, env, prog, pre + cond, post, stack, r.world, n);
        SimThen(env, prog, cond + rest, s, w, n, Val(s, r.world), rest, Onto(stack, full), post);
      }
    }
  }

  lemma TailOne(cs: seq<Child>)
    requires OneValueEach(cs) && cs != []
    ensures OneValueEach(cs[1..])
  {
    hide Dep;
    forall i | 0 <= i < |cs[1..]|
      ensures Dep(cs[1..][i].expr) == 1
    {
      assert cs[1..][i] == cs[i + 1];
    }
  }

  /** A correct child with one value: evaluating it, taking one value and keeping one are the same. */
  lemma SimWholeLength(c: Child, env: Env, prog: seq<Item>, pre: seq<Item>, post: seq<Item>, stack: seq<Word>, w: World, n: nat)
    requires Sound(c) && Dep(c.expr) == 1 && Good(env, prog) && prog == pre + Kept(c, 1) + post
    ensures var r := Eval(env, c.expr, w, n); r.Val? ==> |r.vals| == 1
  {
    hide Eval, Sim, Good, Correct, Dep, Whole;
    assert Pops(0) == [];
    assert Kept(c, 1) == Whole(c);
    SimWhole(c, env, prog, pre, post, stack, w, n);
  }

  lemma OneKept(env: Env, e: Expr, w: World, n: nat)
    ensures var r := Eval(env, e, w, n); r.Val? && |r.vals| == 1 ==> Cut(r, 1) == r && EvalOne(env, e, w, n) == r
    ensures var r := Eval(env, e, w, n); !r.Val? ==> Cut(r, 1) == r && EvalOne(env, e, w, n) == r
  {
    hide Eval;
    var r := Eval(env, e, w, n);
    if r.Val? && |r.vals| == 1 {
      assert r.vals[..1] == r.vals;
    }
  }

  lemma SimShort(cs: seq<Child>, stopAt: bool, end: Word, env: Env, prog: seq<Item>, pre: seq<Item>, post: seq<Item>, stack: seq<Word>, w: World, n: nat)
    requires AllSound(cs) && OneValueEach(cs) && cs != [] && Good(env, prog)
    requires prog == pre + ShortCode(cs, stopAt, end) + post
    ensures var r := EvalShort(env, Exprs(cs), stopAt, w, n);
            && (r.Val? ==> |r.vals| == 1)
            && Sim(env, prog, ShortCode(cs, stopAt, end) + post, stack, w, n, Onto(stack, r), post)
  {
    hide Sim, Good, Correct, Kept, Eval, EvalOne, Dep, Exec, ShortTail;
    var c := cs[0];
    assert Sound(c) && Dep(c.expr) == 1;
    assert Exprs(cs)[0] == c.expr;
    var atEnd := [Tag(end)] + post;
    var full := EvalShort(env, Exprs(cs), stopAt, w, n);
    if |cs| == 1 {
      assert ShortCode(cs, stopAt, end) + post == Kept(c, 1) + atEnd;
      assert prog == pre + Kept(c, 1) + atEnd;
      SimKept(c, 1, env, prog, pre, atEnd, stack, w, n);
      OneKept(env, c.expr, w, n);
      SimWholeLength(c, env, prog, pre, atEnd, stack, w, n);
      if full.Val? {
        SimTag(env, prog, end, post, stack + full.vals, full.world, n);
      }
      SimThen(env, prog, Kept(c, 1) + atEnd, stack, w, n, Onto(stack, full), atEnd, Onto(stack, full), post);
    } else {
      var push := [Push(Bool(stopAt))];
      var mid := ShortTail(cs, stopAt, end) + atEnd;
      assert ShortCode(cs, stopAt, end) + post == push + mid;
      assert prog == (pre + push) + ShortTail(cs, stopAt, end) + atEnd;
      ExecOne(env, Push(Bool(stopAt)), stack, w);
      ExecPush(env, Push(Bool(stopAt)), stack, w);
      SimExec(env, prog, push, mid, stack, w, n);
      SimShortTail(cs, stopAt, end, env, prog, pre + push, post, stack, w, n);
      SimThen(env, prog, push + mid, stack, w, n, Val(stack + [Bool(stopAt)], w), mid, Onto(stack, full), post);
    }
  }

  // ----- SWITCH -----

  /** One case: its condition, its body and the tag in front of the body. */
  datatype Case = Case(cond: Child, body: Child, tag: Word)

  function MovedCases(cases: seq<Case>, delta: nat): (r: seq<Case>)
    ensures |r| == |cases|
  {
    seq(|cases|, i requires 0 <= i < |cases| => Case(Moved(cases[i].cond, delta), Moved(cases[i].body, delta), MovedTag(cases[i].tag, delta)))
  }

  /** The conditions in order. */
  function CondsCode(cases: seq<Case>): seq<Item> {
    if cases == [] then [] else CondCode(cases[0].cond, false, cases[0].tag) + CondsCode(cases[1..])
  }

  /** The bodies of the first k cases, the last one first. */
  function BodiesCode(cases: seq<Case>, k: nat, end: Word): seq<Item>
    requires k <= |cases|
  {
    if k == 0 then []
    else [Tag(cases[k - 1].tag)] + BodyCode(cases, k - 1, end) + BodiesCode(cases, k - 1, end)
  }

  function BodyCode(cases: seq<Case>, i: nat, end: Word): seq<Item>
    requires i < |cases|
  {
    Whole(cases[i].body) + (if i == 0 then [] else JumpCode(end))
  }

  function DefaultCode(default: Option<Child>): seq<Item> {
    if default.Some? then Whole(default.value) else []
  }

  function SwitchCode(cases: seq<Case>, default: Option<Child>, end: Word): seq<Item> {
    CondsCode(cases) + DefaultCode(default) +
    (if cases == [] then [] else JumpCode(end) + BodiesCode(cases, |cases|, end) + [Tag(end)])
  }

  function SwitchArgs(cases: seq<Case>, default: Option<Child>): seq<Expr> {
    if cases == [] then (if default.Some? then [default.value.expr] else [])
    else [cases[0].cond.expr, cases[0].body.expr] + SwitchArgs(cases[1..], default)
  }

  function MovedDefault(default: Option<Child>, delta: nat): Option<Child> {
    if default.Some? then Some(Moved(default.value, delta)) else None
  }

  lemma {:induction false} ShiftConds(cases: seq<Case>, delta: nat)
    ensures Shift(CondsCode(cases), delta) == CondsCode(MovedCases(cases, delta))
  {
    hide CondCode;
    if cases != [] {
      var c := cases[0];
      ShiftConcat(CondCode(c.cond, false, c.tag), CondsCode(cases[1..]), delta);
      ShiftCond(c.cond, false, c.tag, delta);
      ShiftConds(cases[1..], delta);
      assert MovedCases(cases, delta)[1..] == MovedCases(cases[1..], delta);
    }
  }

  lemma {:induction false} ShiftBodies(cases: seq<Case>, k: nat, end: Word, delta: nat)
    requires k <= |cases|
    ensures Shift(BodiesCode(cases, k, end), delta) == BodiesCode(MovedCases(cases, delta), k, MovedTag(end, delta))
  {
    hide Whole, JumpCode, Shift;
    if k > 0 {
      var c, body := cases[k - 1], BodyCode(cases, k - 1, end);
      ShiftConcat([Tag(c.tag)] + body, BodiesCode(cases, k - 1, end), delta);
      ShiftConcat([Tag(c.tag)], body, delta);
      ShiftConcat(Whole(c.body), if k == 1 then [] else JumpCode(end), delta);
      ShiftWhole(c.body, delta);
      ShiftJumps(end, delta);
      ShiftJumps(c.tag, delta);
      ShiftEmpty(delta);
      ShiftBodies(cases, k - 1, end, delta);
    } else {
      ShiftEmpty(delta);
    }
  }

  lemma ShiftEmpty(delta: nat)
    ensures Shift([], delta) == []
  {
  }

  lemma ShiftSwitch(cases: seq<Case>, default: Option<Child>, end: Word, delta: nat)
    ensures Shift(SwitchCode(cases, default, end), delta) == SwitchCode(MovedCases(cases, delta), MovedDefault(default, delta), MovedTag(end, delta))
  {
    hide Whole, JumpCode, Shift, CondsCode, BodiesCode;
    var targets := if cases == [] then [] else JumpCode(end) + BodiesCode(cases, |cases|, end) + [Tag(end)];
    ShiftEmpty(delta);
    ShiftConcat(CondsCode(cases) + DefaultCode(default), targets, delta);
    ShiftConcat(CondsCode(cases), DefaultCode(default), delta);
    ShiftConds(cases, delta);
    if default.Some? {
      ShiftWhole(default.value, delta);
    }
    if cases != [] {
      ShiftConcat(JumpCode(end) + BodiesCode(cases, |cases|, end), [Tag(end)], delta);
      ShiftConcat(JumpCode(end), BodiesCode(cases, |cases|, end), delta);
      ShiftBodies(cases, |cases|, end, delta);
      ShiftJumps(end, delta);
    }
  }

  ghost predicate CasesSound(cases: seq<Case>, default: Option<Child>, d: nat) {
    && (forall i | 0 <= i < |cases| :: CaseSound(cases[i], d))
    && (if default.Some? then Sound(default.value) && Dep(default.value.expr) == d else d == 0)
  }

  ghost predicate CaseSound(c: Case, d: nat) {
    Sound(c.cond) && Sound(c.body) && Dep(c.cond.expr) == 1 && Dep(c.body.expr) == d
  }

  /** The place of a body among all bodies. */
  lemma {:induction false} SplitBodies(cases: seq<Case>, k: nat, i: nat, end: Word) returns (front: seq<Item>)
    requires i < k <= |cases|
    ensures BodiesCode(cases, k, end) == front + [Tag(cases[i].tag)] + (BodyCode(cases, i, end) + BodiesCode(cases, i, end))
  {
    hide BodyCode;
    if i == k - 1 {
      front := [];
    } else {
      var rest := SplitBodies(cases, k - 1, i, end);
      front := [Tag(cases[k - 1].tag)] + BodyCode(cases, k - 1, end) + rest;
    }
  }

  lemma BodyParts(cases: seq<Case>, i: nat, end: Word, front: seq<Item>, atEnd: seq<Item>)
    requires i < |cases|
    ensures var rest := if i == 0 then atEnd else JumpCode(end) + (BodiesCode(cases, i, end) + atEnd);
            var whole := BodyCode(cases, i, end) + BodiesCode(cases, i, end) + atEnd;
            whole == Whole(cases[i].body) + rest && front + whole == front + Whole(cases[i].body) + rest
  {
    hide Whole, JumpCode, BodiesCode;
    var code, jump, bodies := Whole(cases[i].body), JumpCode(end), BodiesCode(cases, i, end);
    if i == 0 {
      NoBodies(cases, end);
      Regroup(front, code, [], [], atEnd);
      assert [] + ([] + atEnd) == atEnd;
    } else {
      Regroup(front, code, jump, bodies, atEnd);
    }
  }

  lemma NoBodies(cases: seq<Case>, end: Word)
    ensures BodiesCode(cases, 0, end) == []
  {
  }

  lemma Regroup(front: seq<Item>, a: seq<Item>, b: seq<Item>, c: seq<Item>, d: seq<Item>)
    ensures (a + b) + c + d == a + (b + (c + d))
    ensures front + ((a + b) + c + d) == front + a + (b + (c + d))
  {
  }

  /** A body, from behind its tag to the end of the construct. */
  lemma SimBody(cases: seq<Case>, i: nat, end: Word, d: nat, env: Env, prog: seq<Item>, front: seq<Item>, before: seq<Item>, post: seq<Item>, stack: seq<Word>, w: World, n: nat)
    requires i < |cases| && CaseSound(cases[i], d) && Good(env, prog)
    requires prog == front + (BodyCode(cases, i, end) + BodiesCode(cases, i, end) + ([Tag(end)] + post))
    requires prog == before + [Tag(end)] + post
    ensures var r := Eval(env, cases[i].body.expr, w, n);
            && (r.Val? ==> |r.vals| == d)
            && Sim(env, prog, BodyCode(cases, i, end) + BodiesCode(cases, i, end) + ([Tag(end)] + post), stack, w, n, Onto(stack, r), post)
  {
    hide Sim, Good, Correct, Eval, Dep, Whole, JumpCode, BodiesCode, BodyCode;
    var body, atEnd := cases[i].body, [Tag(end)] + post;
    var rest := if i == 0 then atEnd else JumpCode(end) + (BodiesCode(cases, i, end) + atEnd);
    BodyParts(cases, i, end, front, atEnd);
    SimWhole(body, env, prog, front, rest, stack, w, n);
    var r := Eval(env, body.expr, w, n);
    if r.Val? {
      var s := stack + r.vals;
      if i == 0 {
        SimTag(env, prog, end, post, s, r.world, n);
      } else {
        SimJump(env, prog, BodiesCode(cases, i, end) + atEnd, s, r.world, n, before, end, post);
      }
    }
    SimThen(env, prog, Whole(body) + rest, stack, w, n, Onto(stack, r), rest, Onto(stack, r), post);
  }

  /** What follows the conditions that did not hold. */
  function Otherwise(cases: seq<Case>, i: nat, default: Option<Child>, end: Word): seq<Item>
    requires i <= |cases|
  {
    CondsCode(cases[i..]) + DefaultCode(default) + (JumpCode(end) + BodiesCode(cases, |cases|, end))
  }

  lemma {:induction false} SimCases(cases: seq<Case>, i: nat, default: Option<Child>, end: Word, d: nat, env: Env, prog: seq<Item>, pre: seq<Item>, post: seq<Item>,
                                    stack: seq<Word>, w: World, n: nat)
    requires cases != [] && i <= |cases| && CasesSound(cases, default, d) && Good(env, prog)
    requires prog == pre + Otherwise(cases, i, default, end) + ([Tag(end)] + post)
    ensures var r := EvalCases(env, SwitchArgs(cases[i..], default), w, n);
            && (r.Val? ==> |r.vals| == d)
            && Sim(env, prog, Otherwise(cases, i, default, end) + ([Tag(end)] + post), stack, w, n, Onto(stack, r), post)
    decreases |cases| - i
  {
    hide Sim, Good, Correct, Eval, EvalOne, Dep, Whole, JumpCode, CondCode, BodiesCode, BodyCode, CondsCode, Otherwise, SwitchArgs, EvalCases;
    var atEnd := [Tag(end)] + post;
    var before := pre + Otherwise(cases, i, default, end);
    assert prog == before + [Tag(end)] + post;
    if i == |cases| {
      SimDefault(cases, default, end, d, env, prog, pre, post, stack, w, n);
    } else {
      var c := cases[i];
      assert CaseSound(c, d);
      var cond, rest := CondCode(c.cond, false, c.tag), Otherwise(cases, i + 1, default, end) + atEnd;
      OtherwiseStep(cases, i, default, end, pre, atEnd);
      var front := SplitBodies(cases, |cases|, i, end);
      var body := BodyCode(cases, i, end) + BodiesCode(cases, i, end) + atEnd;
      var upto := pre + CondsCode(cases[i..]) + DefaultCode(default) + JumpCode(end) + front;
      PlaceOfBody(cases, i, default, end, pre, atEnd, front);
      assert prog == upto + [Tag(c.tag)] + body;
      SimCond(c.cond, false, c.tag, env, prog, pre, rest, upto, body, stack, w, n);
      CasesMeaning(cases, i, default, env, w, n);
      var r := EvalOne(env, c.cond.expr, w, n);
      var full := EvalCases(env, SwitchArgs(cases[i..], default), w, n);
      if !r.Val? {
        SimThen(env, prog, cond + rest, stack, w, n, r, rest, r, post);
      } else if r.vals[0] != 0 {
        assert prog == (upto + [Tag(c.tag)]) + body;
        SimBody(cases, i, end, d, env, prog, upto + [Tag(c.tag)], before, post, stack, r.world, n);
        SimThen(env, prog, cond + rest, stack, w, n, Val(stack, r.world), body, Onto(stack, full), post);
      } else {
        assert pre + cond + rest == (pre + cond) + Otherwise(cases, i + 1, default, end) + atEnd;
        SimCases(cases, i + 1, default, end, d, env, prog, pre + cond, post, stack, r.world, n);
        SimThen(env, prog, cond + rest, stack, w, n, Val(stack, r.world), rest, Onto(stack, full), post);
      }
    }
  }

  lemma OtherwiseStep(cases: seq<Case>, i: nat, default: Option<Child>, end: Word, pre: seq<Item>, atEnd: seq<Item>)
    requires i < |cases|
    ensures var cond, rest := CondCode(cases[i].cond, false, cases[i].tag), Otherwise(cases, i + 1, default, end) + atEnd;
            && Otherwise(cases, i, default, end) + atEnd == cond + rest
            && pre + Otherwise(cases, i, default, end) + atEnd == pre + cond + rest
  {
    hide CondCode, DefaultCode, JumpCode, BodiesCode;
    assert cases[i..][0] == cases[i] && cases[i..][1..] == cases[i + 1..];
  }

  lemma CasesMeaning(cases: seq<Case>, i: nat, default: Option<Child>, env: Env, w: World, n: nat)
    requires i < |cases|
    ensures var r := EvalOne(env, cases[i].cond.expr, w, n);
            EvalCases(env, SwitchArgs(cases[i..], default), w, n) ==
            if !r.Val? then r
            else if r.vals[0] != 0 then Eval(env, cases[i].body.expr, r.world, n)
            else EvalCases(env, SwitchArgs(cases[i + 1..], default), r.world, n)
  {
    hide Eval, EvalOne;
    assert cases[i..][0] == cases[i] && cases[i..][1..] == cases[i + 1..];
    var args, rest := SwitchArgs(cases[i..], default), SwitchArgs(cases[i + 1..], default);
    assert args == [cases[i].cond.expr, cases[i].body.expr] + rest;
    assert args[0] == cases[i].cond.expr && args[1] == cases[i].body.expr && args[2..] == rest;
  }

  lemma PlaceOfBody(cases: seq<Case>, i: nat, default: Option<Child>, end: Word, pre: seq<Item>, atEnd: seq<Item>, front: seq<Item>)
    requires i < |cases|
    requires BodiesCode(cases, |cases|, end) == front + [Tag(cases[i].tag)] + (BodyCode(cases, i, end) + BodiesCode(cases, i, end))
    ensures pre + Otherwise(cases, i, default, end) + atEnd ==
            (pre + CondsCode(cases[i..]) + DefaultCode(default) + JumpCode(end) + front) + [Tag(cases[i].tag)] +
            (BodyCode(cases, i, end) + BodiesCode(cases, i, end) + atEnd)
  {
    hide CondsCode, DefaultCode, JumpCode, BodiesCode, BodyCode;
  }

  lemma SimDefault(cases: seq<Case>, default: Option<Child>, end: Word, d: nat, env: Env, prog: seq<Item>, pre: seq<Item>, post: seq<Item>, stack: seq<Word>, w: World, n: nat)
    requires cases != [] && CasesSound(cases, default, d) && Good(env, prog)
    requires prog == pre + Otherwise(cases, |cases|, default, end) + ([Tag(end)] + post)
    ensures var r := EvalCases(env, SwitchArgs(cases[|cases|..], default), w, n);
            && (r.Val? ==> |r.vals| == d)
            && Sim(env, prog, Otherwise(cases, |cases|, default, end) + ([Tag(end)] + post), stack, w, n, Onto(stack, r), post)
  {
    hide Sim, Good, Correct, Eval, Dep, Whole, JumpCode, BodiesCode, EvalOne;
    var atEnd := [Tag(end)] + post;
    var bodies := BodiesCode(cases, |cases|, end);
    assert cases[|cases|..] == [];
    assert prog == (pre + Otherwise(cases, |cases|, default, end)) + [Tag(end)] + post;
    var mid := JumpCode(end) + (bodies + atEnd);
    assert Otherwise(cases, |cases|, default, end) + atEnd == DefaultCode(default) + mid;
    var r := EvalCases(env, SwitchArgs([], default), w, n);
    if default.Some? {
      var c := default.value;
      assert SwitchArgs([], default) == [c.expr];
      assert prog == pre + Whole(c) + mid;
      SimWhole(c, env, prog, pre, mid, stack, w, n);
    } else {
      assert DefaultCode(default) + mid == mid && stack + [] == stack;
      SimNothing(env, prog, mid, stack, w, n);
    }
    if r.Val? {
      SimJump(env, prog, bodies + atEnd, stack + r.vals, r.world, n, pre + Otherwise(cases, |cases|, default, end), end, post);
    }
    SimThen(env, prog, DefaultCode(default) + mid, stack, w, n, Onto(stack, r), mid, Onto(stack, r), post);
  }

  lemma SimSwitch(cases: seq<Case>, default: Option<Child>, end: Word, d: nat, env: Env, prog: seq<Item>, pre: seq<Item>, post: seq<Item>, stack: seq<Word>, w: World, n: nat)
    requires CasesSound(cases, default, d) && Good(env, prog)
    requires prog == pre + SwitchCode(cases, default, end) + post
    ensures var r := EvalCases(env, SwitchArgs(cases, default), w, n);
            && (r.Val? ==> |r.vals| == d)
            && Sim(env, prog, SwitchCode(cases, default, end) + post, stack, w, n, Onto(stack, r), post)
  {
    hide Sim, Good, Correct, Eval, EvalOne, Dep, Whole, JumpCode, BodiesCode;
    if cases == [] {
      assert SwitchCode(cases, default, end) == DefaultCode(default);
      if default.Some? {
        assert SwitchArgs(cases, default) == [default.value.expr];
        SimWhole(default.value, env, prog, pre, post, stack, w, n);
      } else {
        assert [] + post == post && stack + [] == stack;
        SimNothing(env, prog, post, stack, w, n);
      }
    } else {
      assert cases[0..] == cases;
      var atEnd := [Tag(end)] + post;
      assert SwitchCode(cases, default, end) + post == Otherwise(cases, 0, default, end) + atEnd;
      assert prog == pre + Otherwise(cases, 0, default, end) + atEnd;
      SimCases(cases, 0, default, end, d, env, prog, pre, post, stack, w, n);
    }
  }
}
