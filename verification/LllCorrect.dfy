/** From the behaviour of the code of every construct to its correctness at any place of a program. */
module LllCorrect {
  import opened Wrappers
  import opened Words
  import opened Instructions
  import opened Items
  import opened Machine
  import opened LllEval
  import opened LllCode
  import opened LllRules

  lemma LiteralCorrect(i: Word)
    ensures Correct(Literal(i), [Push(i)])
  {
    hide Sim, Good, Exec;
    var e, items := Literal(i), [Push(i)];
    forall offset: nat, env, pre, post, stack, w, n: nat | Good(env, pre + Shift(items, offset) + post)
      ensures CorrectAt(e, items, offset, env, pre, post, stack, w, n)
    {
      assert Shift(items, offset) == items;
      ExecOne(env, Push(i), stack, w);
      ExecPush(env, Push(i), stack, w);
      SimExec(env, pre + items + post, items, post, stack, w, n);
    }
  }

  lemma InstrCorrect(cs: seq<Child>, op: Opcode)
    requires AllSound(cs) && HaveValue(cs) && IsFunctional(op) && |cs| == ArgCount(op)
    ensures Correct(Node(Instr(op), Exprs(cs)), ArgsCode(cs) + [Operation(op)])
  {
    hide Sim, Good, Eval, ArgsCode, IsFunctional, ArgCount, AllSound, HaveValue, Shift, RetCount;
    var e, items := Node(Instr(op), Exprs(cs)), ArgsCode(cs) + [Operation(op)];
    forall offset: nat, env, pre, post, stack, w, n: nat | Good(env, pre + Shift(items, offset) + post)
      ensures CorrectAt(e, items, offset, env, pre, post, stack, w, n)
    {
      ShiftArgsThen(cs, [Operation(op)], offset);
      var code := ArgsCode(AllMoved(cs, offset)) + [Operation(op)];
      assert pre + code + post == pre + ArgsCode(AllMoved(cs, offset)) + [Operation(op)] + post;
      SimInstr(AllMoved(cs, offset), op, env, pre + code + post, pre, post, stack, w, n);
    }
  }

  /** Items without tags are not renumbered. */
  predicate Tagless(items: seq<Item>) {
    forall i | 0 <= i < |items| :: !items[i].Tag? && !items[i].PushTag?
  }

  lemma ShiftArgsThen(cs: seq<Child>, ops: seq<Item>, offset: nat)
    requires Tagless(ops)
    ensures Shift(ArgsCode(cs) + ops, offset) == ArgsCode(AllMoved(cs, offset)) + ops
    ensures Exprs(AllMoved(cs, offset)) == Exprs(cs) && |AllMoved(cs, offset)| == |cs|
    ensures AllSound(cs) ==> AllSound(AllMoved(cs, offset))
    ensures HaveValue(cs) ==> HaveValue(AllMoved(cs, offset))
  {
    hide ArgsCode, AllSound;
    ShiftConcat(ArgsCode(cs), ops, offset);
    ShiftArgs(cs, offset);
    MovedFacts(cs, offset);
    assert Shift(ops, offset) == ops;
  }

  lemma ArithCorrect(cs: seq<Child>, op: Opcode)
    requires AllSound(cs) && HaveValue(cs) && IsArith(op) && cs != []
    ensures Correct(Node(Arith(op), Exprs(cs)), ArgsCode(cs) + Repeated(op, |cs| - 1))
  {
    hide Sim, Good, Eval, ArgsCode, IsArith, AllSound, HaveValue, Shift;
    var ops := Repeated(op, |cs| - 1);
    var e, items := Node(Arith(op), Exprs(cs)), ArgsCode(cs) + ops;
    forall offset: nat, env, pre, post, stack, w, n: nat | Good(env, pre + Shift(items, offset) + post)
      ensures CorrectAt(e, items, offset, env, pre, post, stack, w, n)
    {
      ShiftArgsThen(cs, ops, offset);
      var code := ArgsCode(AllMoved(cs, offset)) + ops;
      assert pre + code + post == pre + ArgsCode(AllMoved(cs, offset)) + ops + post;
      SimArith(AllMoved(cs, offset), op, env, pre + code + post, pre, post, stack, w, n);
    }
  }

  lemma CompareCorrect(cs: seq<Child>, op: Opcode, negated: bool)
    requires AllSound(cs) && HaveValue(cs) && IsCompare(op) && |cs| == 2
    ensures Correct(Node(Compare(op, negated), Exprs(cs)), ArgsCode(cs) + ([Operation(op)] + Negation(negated)))
  {
    hide Sim, Good, Eval, ArgsCode, IsCompare, AllSound, HaveValue, Shift;
    var ops := [Operation(op)] + Negation(negated);
    var e, items := Node(Compare(op, negated), Exprs(cs)), ArgsCode(cs) + ops;
    forall offset: nat, env, pre, post, stack, w, n: nat | Good(env, pre + Shift(items, offset) + post)
      ensures CorrectAt(e, items, offset, env, pre, post, stack, w, n)
    {
      ShiftArgsThen(cs, ops, offset);
      var code := ArgsCode(AllMoved(cs, offset)) + ops;
      assert pre + code + post == pre + ArgsCode(AllMoved(cs, offset)) + ops + post;
      SimCompare(AllMoved(cs, offset), op, negated, env, pre + code + post, pre, post, stack, w, n);
    }
  }

  lemma UnaryCorrect(cs: seq<Child>, op: Opcode)
    requires AllSound(cs) && HaveValue(cs) && IsUnary(op) && |cs| == 1
    ensures Correct(Node(Unary(op), Exprs(cs)), ArgsCode(cs) + [Operation(op)])
  {
    hide Sim, Good, Eval, ArgsCode, IsUnary, AllSound, HaveValue, Shift;
    var e, items := Node(Unary(op), Exprs(cs)), ArgsCode(cs) + [Operation(op)];
    forall offset: nat, env, pre, post, stack, w, n: nat | Good(env, pre + Shift(items, offset) + post)
      ensures CorrectAt(e, items, offset, env, pre, post, stack, w, n)
    {
      ShiftArgsThen(cs, [Operation(op)], offset);
      var code := ArgsCode(AllMoved(cs, offset)) + [Operation(op)];
      assert pre + code + post == pre + ArgsCode(AllMoved(cs, offset)) + [Operation(op)] + post;
      SimUnary(AllMoved(cs, offset), op, env, pre + code + post, pre, post, stack, w, n);
    }
  }

  lemma MovedSound(c: Child, offset: nat)
    ensures Sound(c) ==> Sound(Moved(c, offset))
  {
    hide Correct;
  }

  lemma IfCorrect(c: Child, a: Child, b: Child, main: Word, end: Word)
    requires Sound(c) && Sound(a) && Sound(b) && Dep(c.expr) == 1
    ensures Correct(Node(If, [c.expr, a.expr, b.expr]), IfCode(c, a, b, Min(Dep(a.expr), Dep(b.expr)), main, end))
  {
    hide Sim, Good, Eval, IfCode, Shift, Sound, Dep;
    var d := Min(Dep(a.expr), Dep(b.expr));
    var e, items := Node(If, [c.expr, a.expr, b.expr]), IfCode(c, a, b, d, main, end);
    forall offset: nat, env, pre, post, stack, w, n: nat | Good(env, pre + Shift(items, offset) + post)
      ensures CorrectAt(e, items, offset, env, pre, post, stack, w, n)
    {
      ShiftIf(c, a, b, d, main, end, offset);
      MovedSound(c, offset);
      MovedSound(a, offset);
      MovedSound(b, offset);
      IfMeaning(env, c.expr, a.expr, b.expr, w, n);
      SimIf(Moved(c, offset), Moved(a, offset), Moved(b, offset), MovedTag(main, offset), MovedTag(end, offset), env, pre + Shift(items, offset) + post, pre, post, stack, w, n);
    }
  }

  lemma WhenCorrect(c: Child, a: Child, negated: bool, end: Word)
    requires Sound(c) && Sound(a) && Dep(c.expr) == 1
    ensures Correct(Node(if negated then When else Unless, [c.expr, a.expr]), WhenCode(c, a, negated, end))
  {
    hide Sim, Good, Eval, WhenCode, Shift, Sound;
    var e, items := Node(if negated then When else Unless, [c.expr, a.expr]), WhenCode(c, a, negated, end);
    forall offset: nat, env, pre, post, stack, w, n: nat | Good(env, pre + Shift(items, offset) + post)
      ensures CorrectAt(e, items, offset, env, pre, post, stack, w, n)
    {
      ShiftWhen(c, a, negated, end, offset);
      MovedSound(c, offset);
      MovedSound(a, offset);
      SimWhen(Moved(c, offset), Moved(a, offset), negated, MovedTag(end, offset), env, pre + Shift(items, offset) + post, pre, post, stack, w, n);
    }
  }

  lemma WhileCorrect(c: Child, a: Child, whileTrue: bool, begin: Word, end: Word)
    requires Sound(c) && Sound(a) && Dep(c.expr) == 1
    ensures Correct(Node(if whileTrue then While else Until, [c.expr, a.expr]), LoopCode(c, whileTrue, [a], begin, end))
  {
    hide Sim, Good, Eval, LoopCode, Shift, Sound;
    var e, items := Node(if whileTrue then While else Until, [c.expr, a.expr]), LoopCode(c, whileTrue, [a], begin, end);
    forall offset: nat, env, pre, post, stack, w, n: nat | Good(env, pre + Shift(items, offset) + post)
      ensures CorrectAt(e, items, offset, env, pre, post, stack, w, n)
    {
      ShiftLoop(c, whileTrue, [a], begin, end, offset);
      assert AllMoved([a], offset) == [Moved(a, offset)];
      MovedSound(c, offset);
      MovedSound(a, offset);
      SimWhile(Moved(c, offset), Moved(a, offset), whileTrue, MovedTag(begin, offset), MovedTag(end, offset), env, pre + Shift(items, offset) + post, pre, post, stack, w, n);
    }
  }

  lemma ForCorrect(init: Child, c: Child, step: Child, body: Child, begin: Word, end: Word)
    requires Sound(init) && Sound(c) && Sound(step) && Sound(body) && Dep(c.expr) == 1
    ensures Correct(Node(For, [init.expr, c.expr, step.expr, body.expr]), ForCode(init, c, step, body, begin, end))
  {
    hide Sim, Good, Eval, ForCode, Shift, Sound;
    var e, items := Node(For, [init.expr, c.expr, step.expr, body.expr]), ForCode(init, c, step, body, begin, end);
    forall offset: nat, env, pre, post, stack, w, n: nat | Good(env, pre + Shift(items, offset) + post)
      ensures CorrectAt(e, items, offset, env, pre, post, stack, w, n)
    {
      ShiftFor(init, c, step, body, begin, end, offset);
      MovedSound(init, offset);
      MovedSound(c, offset);
      MovedSound(step, offset);
      MovedSound(body, offset);
      SimFor(Moved(init, offset), Moved(c, offset), Moved(step, offset), Moved(body, offset), MovedTag(begin, offset), MovedTag(end, offset), env,
             pre + Shift(items, offset) + post, pre, post, stack, w, n);
    }
  }

  lemma ShortCorrect(cs: seq<Child>, stopAt: bool, end: Word)
    requires AllSound(cs) && OneValueEach(cs) && cs != []
    ensures Correct(Node(if stopAt then Or else And, Exprs(cs)), ShortCode(cs, stopAt, end))
  {
    hide Sim, Good, EvalShort, ShortCode, Shift, AllSound;
    var e, items := Node(if stopAt then Or else And, Exprs(cs)), ShortCode(cs, stopAt, end);
    forall offset: nat, env, pre, post, stack, w, n: nat | Good(env, pre + Shift(items, offset) + post)
      ensures CorrectAt(e, items, offset, env, pre, post, stack, w, n)
    {
      ShiftShort(cs, stopAt, end, offset);
      MovedFacts(cs, offset);
      SimShort(AllMoved(cs, offset), stopAt, MovedTag(end, offset), env, pre + Shift(items, offset) + post, pre, post, stack, w, n);
    }
  }

  lemma SeqCorrect(cs: seq<Child>)
    requires AllSound(cs)
    ensures Correct(Node(Seq, Exprs(cs)), SeqCode(cs))
  {
    hide Sim, Good, EvalSeq, SeqCode, Shift, AllSound;
    var e, items := Node(Seq, Exprs(cs)), SeqCode(cs);
    forall offset: nat, env, pre, post, stack, w, n: nat | Good(env, pre + Shift(items, offset) + post)
      ensures CorrectAt(e, items, offset, env, pre, post, stack, w, n)
    {
      ShiftSeq(cs, offset);
      MovedFacts(cs, offset);
      SimSeq(AllMoved(cs, offset), env, pre + Shift(items, offset) + post, pre, post, stack, w, n);
    }
  }

  lemma {:induction false} MovedSwitchArgs(cases: seq<Case>, default: Option<Child>, offset: nat)
    ensures SwitchArgs(MovedCases(cases, offset), MovedDefault(default, offset)) == SwitchArgs(cases, default)
  {
    if cases != [] {
      assert MovedCases(cases, offset)[1..] == MovedCases(cases[1..], offset);
      MovedSwitchArgs(cases[1..], default, offset);
    }
  }

  lemma {:induction false} SwitchArgsShape(cases: seq<Case>, default: Option<Child>)
    ensures |SwitchArgs(cases, default)| == 2 * |cases| + (if default.Some? then 1 else 0)
    ensures default.Some? ==> SwitchArgs(cases, default)[2 * |cases|] == default.value.expr
  {
    if cases != [] {
      SwitchArgsShape(cases[1..], default);
    }
  }

  lemma MovedCasesSound(cases: seq<Case>, default: Option<Child>, d: nat, offset: nat)
    requires CasesSound(cases, default, d)
    ensures CasesSound(MovedCases(cases, offset), MovedDefault(default, offset), d)
  {
    hide Correct, Dep;
    forall i | 0 <= i < |cases|
      ensures CaseSound(MovedCases(cases, offset)[i], d)
    {
      assert CaseSound(cases[i], d);
    }
  }

  lemma SwitchCorrect(cases: seq<Case>, default: Option<Child>, d: nat, end: Word)
    requires CasesSound(cases, default, d) && (cases != [] || default.Some?)
    ensures Correct(Node(Switch, SwitchArgs(cases, default)), SwitchCode(cases, default, end))
  {
    hide Sim, Good, EvalCases, SwitchCode, Shift, CasesSound, SwitchArgs;
    var e, items := Node(Switch, SwitchArgs(cases, default)), SwitchCode(cases, default, end);
    SwitchArgsShape(cases, default);
    SwitchDeposit(cases, default, d);
    forall offset: nat, env, pre, post, stack, w, n: nat | Good(env, pre + Shift(items, offset) + post)
      ensures CorrectAt(e, items, offset, env, pre, post, stack, w, n)
    {
      ShiftSwitch(cases, default, end, offset);
      MovedSwitchArgs(cases, default, offset);
      MovedCasesSound(cases, default, d, offset);
      SimSwitch(MovedCases(cases, offset), MovedDefault(default, offset), MovedTag(end, offset), d, env, pre + Shift(items, offset) + post, pre, post, stack, w, n);
    }
  }

  lemma SwitchDeposit(cases: seq<Case>, default: Option<Child>, d: nat)
    requires CasesSound(cases, default, d)
    ensures Dep(Node(Switch, SwitchArgs(cases, default))) == d
  {
    hide Correct, SwitchArgs;
    SwitchArgsShape(cases, default);
    var args := SwitchArgs(cases, default);
    if default.Some? {
      assert |args| % 2 == 1;
    } else {
      assert |args| % 2 == 0;
    }
  }
}
