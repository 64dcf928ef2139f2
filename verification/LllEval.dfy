/** The trees of LLL and a direct evaluator for them (liblll/CodeFragment.cpp:392-688). */
module LllEval {
  import opened Words
  import opened Instructions
  import opened Items
  import opened Machine

  datatype Operator =
    | Instr(op: Opcode)                    // an instruction used as a function
    | Arith(op: Opcode)                    // + - * / % & | ^ with one or more arguments
    | Compare(op: Opcode, negated: bool)   // < <= > >= S< S<= S> S>= = !=
    | Unary(op: Opcode)                    // ! ~
    | If | When | Unless | While | Until | For | Switch | And | Or | Seq

  datatype Expr = Literal(n: int) | Node(op: Operator, args: seq<Expr>)

  /** Instructions that may be used as functions. JUMP and JUMPI leave the tree and are not followed. */
  predicate IsFunctional(op: Opcode) {
    IsValidInstruction(op) && !IsPush(op) && !IsDup(op) && !IsSwap(op) && op != JUMPDEST && op != JUMP && op != JUMPI
  }

  predicate IsArith(op: Opcode) {
    op in {ADD, SUB, MUL, DIV, MOD, AND, OR, XOR}
  }

  predicate IsCompare(op: Opcode) {
    op in {LT, GT, SLT, SGT, EQ}
  }

  predicate IsUnary(op: Opcode) {
    op in {ISZERO, NOT}
  }

  /** The number of values an expression leaves on the stack. */
  function Dep(e: Expr): nat
    decreases e
  {
    match e
    case Literal(_) => 1
    case Node(op, args) =>
      match op
      case Instr(i) => RetCount(i)
      case Arith(_) => 1
      case Compare(_, _) => 1
      case Unary(_) => 1
      case If => if |args| == 3 then Min(Dep(args[1]), Dep(args[2])) else 0
      case Switch => if |args| % 2 == 1 then Dep(args[|args| - 1]) else 0
      case And => 1
      case Or => 1
      case Seq => if |args| > 0 then Dep(args[|args| - 1]) else 0
      case _ => 0
  }

  /** `Val` holds the values left on the stack, the topmost last. */
  datatype Res =
    | Val(vals: seq<Word>, world: World)
    | Ended(status: Status, output: seq<Octet>, world: World)
    | Starved   // more loop iterations than allowed
    | Ill       // not an expression of the language

  ghost function Eval(env: Env, e: Expr, w: World, n: nat): Res
    decreases n, e, 0
  {
    match e
    case Literal(i) => if 0 <= i < WORD_BASE then Val([i], w) else Ill
    case Node(op, args) =>
      match op
      case Instr(i) =>
        if !IsFunctional(i) || |args| != ArgCount(i) then Ill
        else
          var r := EvalArgs(env, args, w, n);
          if r.Val? then OfStep(ExecOperation(env, i, r.vals, [], r.world)) else r
      case Arith(i) =>
        if !IsArith(i) || args == [] then Ill
        else
          var r := EvalArgs(env, args, w, n);
          if r.Val? && |r.vals| > 0 then Val([FoldLeft(i, r.vals[0], r.vals[1..])], r.world) else r
      case Compare(i, negated) =>
        if !IsCompare(i) || |args| != 2 then Ill
        else
          var r := EvalArgs(env, args, w, n);
          if r.Val? && |r.vals| == 2 then
            var v := Binary(i, r.vals[0], r.vals[1]);
            Val([if negated then Bool(v == 0) else v], r.world)
          else r
      case Unary(i) =>
        if !IsUnary(i) || |args| != 1 then Ill
        else
          var r := EvalArgs(env, args, w, n);
          if r.Val? && |r.vals| == 1 then Val([Monadic(i, r.vals[0])], r.world) else r
      case If =>
        if |args| != 3 then Ill
        else
          var c := EvalOne(env, args[0], w, n);
          if !c.Val? then c
          else if c.vals[0] != 0 then Cut(Eval(env, args[1], c.world, n), Dep(e))
          else Cut(Eval(env, args[2], c.world, n), Dep(e))
      case When =>
        if |args| != 2 then Ill
        else
          var c := EvalOne(env, args[0], w, n);
          if !c.Val? then c
          else if c.vals[0] != 0 then Cut(Eval(env, args[1], c.world, n), 0)
          else Val([], c.world)
      case Unless =>
        if |args| != 2 then Ill
        else
          var c := EvalOne(env, args[0], w, n);
          if !c.Val? then c
          else if c.vals[0] == 0 then Cut(Eval(env, args[1], c.world, n), 0)
          else Val([], c.world)
      case While => if |args| != 2 then Ill else EvalLoop(env, e, args[0], true, args[1..], w, n)
      case Until => if |args| != 2 then Ill else EvalLoop(env, e, args[0], false, args[1..], w, n)
      case For =>
        if |args| != 4 then Ill
        else
          var r := Cut(Eval(env, args[0], w, n), 0);
          if r.Val? then EvalLoop(env, e, args[1], true, [args[3], args[2]], r.world, n) else r
      case Switch => if args == [] then Ill else EvalCases(env, args, w, n)
      case And => if args == [] then Ill else EvalShort(env, args, false, w, n)
      case Or => if args == [] then Ill else EvalShort(env, args, true, w, n)
      case Seq => EvalSeq(env, args, w, n)
  }

  /** Keeps the first d values. */
  function Cut(r: Res, d: nat): Res {
    if r.Val? then (if d <= |r.vals| then Val(r.vals[..d], r.world) else Ill) else r
  }

  ghost function OfStep(r: Step): Res {
    match r
    case Next(s, w) => Val(s, w)
    case Halt(status, output, _, w) => Ended(status, output, w)
    case _ => Ill
  }

  function Binary(op: Opcode, x: Word, y: Word): Word {
    if IsArithmetic(op) && ArgCount(op) == 2 then Arithmetic(op, [x, y]) else 0
  }

  function Monadic(op: Opcode, x: Word): Word {
    if IsArithmetic(op) && ArgCount(op) == 1 then Arithmetic(op, [x]) else 0
  }

  /** ((x op xs[0]) op xs[1]) op ... */
  function FoldLeft(op: Opcode, x: Word, xs: seq<Word>): Word
    decreases |xs|
  {
    if xs == [] then x else FoldLeft(op, Binary(op, x, xs[0]), xs[1..])
  }

  /** An expression that leaves exactly one value. */
  ghost function EvalOne(env: Env, e: Expr, w: World, n: nat): (r: Res)
    ensures r.Val? ==> |r.vals| == 1
    decreases n, e, 1
  {
    var r := Eval(env, e, w, n);
    if r.Val? && |r.vals| != 1 then Ill else r
  }

  /** The arguments of a function: one value each, evaluated from the last to the first. */
  ghost function EvalArgs(env: Env, args: seq<Expr>, w: World, n: nat): (r: Res)
    ensures r.Val? ==> |r.vals| == |args|
    decreases n, args, 0
  {
    if args == [] then Val([], w)
    else
      var rest := EvalArgs(env, args[1..], w, n);
      if !rest.Val? then rest
      else
        var r := Cut(Eval(env, args[0], rest.world, n), 1);
        if r.Val? then Val(r.vals + rest.vals, r.world) else r
  }

  /** All expressions in order; only the values of the last one stay. */
  ghost function EvalSeq(env: Env, args: seq<Expr>, w: World, n: nat): Res
    decreases n, args, 0
  {
    if args == [] then Val([], w)
    else if |args| == 1 then Eval(env, args[0], w, n)
    else
      var r := Cut(Eval(env, args[0], w, n), 0);
      if r.Val? then EvalSeq(env, args[1..], r.world, n) else r
  }

  /** Short circuit: the last argument decides, unless one before it is true (for ||) or false (for &&). */
  ghost function EvalShort(env: Env, args: seq<Expr>, stopAt: bool, w: World, n: nat): Res
    requires args != []
    decreases n, args, 0
  {
    var r := EvalOne(env, args[0], w, n);
    if !r.Val? || |args| == 1 then r
    else if (r.vals[0] != 0) == stopAt then Val([Bool(stopAt)], r.world)
    else EvalShort(env, args[1..], stopAt, r.world, n)
  }

  /** The conditions in order; the first that holds selects its body. A single expression at the end
      is the default. */
  ghost function EvalCases(env: Env, args: seq<Expr>, w: World, n: nat): Res
    decreases n, args, 0
  {
    if args == [] then Val([], w)
    else if |args| == 1 then Eval(env, args[0], w, n)
    else
      var c := EvalOne(env, args[0], w, n);
      if !c.Val? then c
      else if c.vals[0] != 0 then Eval(env, args[1], c.world, n)
      else EvalCases(env, args[2..], c.world, n)
  }

  /** Repeats the steps while the condition is (not) zero; `whole` is the loop itself. */
  ghost function EvalLoop(env: Env, whole: Expr, cond: Expr, whileTrue: bool, steps: seq<Expr>, w: World, n: nat): Res
    requires cond < whole && forall i | 0 <= i < |steps| :: steps[i] < whole
    decreases n, whole, 0, 1
  {
    if n == 0 then Starved
    else
      var c := EvalOne(env, cond, w, n);
      if !c.Val? then c
      else if (c.vals[0] != 0) != whileTrue then Val([], c.world)
      else
        var r := EvalSteps(env, whole, steps, c.world, n);
        if r.Val? then EvalLoop(env, whole, cond, whileTrue, steps, r.world, n - 1) else r
  }

  /** All expressions in order, without their values. */
  ghost function EvalSteps(env: Env, whole: Expr, steps: seq<Expr>, w: World, n: nat): Res
    requires forall i | 0 <= i < |steps| :: steps[i] < whole
    decreases n, whole, 0, 0, |steps|
  {
    if steps == [] then Val([], w)
    else
      var r := Cut(Eval(env, steps[0], w, n), 0);
      if r.Val? then EvalSteps(env, whole, steps[1..], r.world, n) else r
  }
}
