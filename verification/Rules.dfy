/** The simplification rules (libevmasm/RuleList.h) and the matching of expressions against them
    (libevmasm/SimplificationRules.cpp). */
module Rules {
  import opened Wrappers
  import opened Words
  import opened Instructions
  import opened Items
  import opened Machine

  /** Equivalence classes are numbered from zero. */
  type Id = nat

  /** An expression over equivalence classes; the sequence number orders loads and stores and is
      zero for everything else. */
  datatype Expr = Expr(item: Item, args: seq<Id>, seqNr: nat)

  /** Several occurrences of a match group in one rule must match the same class.
      A, B and C stand for constants, X and Y for anything. */
  datatype Group = A | B | C | X | Y

  datatype Pattern =
    | Var(group: Group)
    | Literal(value: Word)
    | Op0(instr: Opcode)
    | Op1(instr: Opcode, arg: Pattern)
    | Op2(instr: Opcode, left: Pattern, right: Pattern)
    | Op3(instr: Opcode, first: Pattern, second: Pattern, third: Pattern)

  predicate IsConstant(g: Group) { g.A? || g.B? || g.C? }

  /** What a rule replaces the matched expression by. */
  datatype Action =
    | Is(result: Pattern)          // a fixed expression
    | Folded(op: Opcode)           // the instruction applied to the constants
    | FoldedProduct                // A * B
    | Combined(op: Opcode)         // X op (A op B)
    | Shifted(up: Group, down: Group)  // X + (up - down), with the smaller of the two constants
    | Difference(up: Group, down: Group) // (up - down) - X
    | LessSum                      // X - (A + B)

  /** A pattern and its replacement. */
  datatype Rule = Rule(pattern: Pattern, action: Action)

  function To(pattern: Pattern, result: Pattern): Rule {
    Rule(pattern, Is(result))
  }

  function Fold(pattern: Pattern): Rule
    requires pattern.Op1? || pattern.Op2? || pattern.Op3?
  {
    Rule(pattern, Folded(pattern.instr))
  }

  // ----- the rule list, in its order -----

  /** Sign extension as the rule computes it: test a bit, then fill or clear above it. */
  function SignExtendByMask(a: Word, b: Word): Word {
    if a >= 31 then b
    else
      Pow2Bits();
      Pow2Monotone(8 * a + 7, WORD_BITS);
      var mask: Word := Pow2(8 * a + 7) - 1;
      if (b / Pow2(8 * a + 7)) % 2 == 1 then Or(b, Not(mask)) else And(b, mask)
  }

  /** A byte as the rule computes it: shift, then mask. */
  function ByteByMask(a: Word, b: Word): Word {
    if a >= 32 then 0 else And(Shr(8 * (31 - a), b), 0xFF)
  }

  /** The arithmetic on constants, as the rules perform it. */
  function FoldedValue(op: Opcode, a: Word, b: Word, c: Word): Word {
    if op == ADD then Add(a, b)
    else if op == MUL then Mul(a, b)
    else if op == SUB then Sub(a, b)
    else if op == DIV then Div(a, b)
    else if op == SDIV then SDiv(a, b)
    else if op == MOD then Mod(a, b)
    else if op == SMOD then SMod(a, b)
    else if op == EXP then Exp(a, b)
    else if op == NOT then Not(a)
    else if op == LT then Bool(a < b)
    else if op == GT then Bool(a > b)
    else if op == SLT then Bool(ToSigned(a) < ToSigned(b))
    else if op == SGT then Bool(ToSigned(a) > ToSigned(b))
    else if op == EQ then Bool(a == b)
    else if op == ISZERO then Bool(a == 0)
    else if op == AND then And(a, b)
    else if op == OR then Or(a, b)
    else if op == XOR then Xor(a, b)
    else if op == BYTE then ByteByMask(a, b)
    else if op == ADDMOD then AddMod(a, b, c)
    else if op == MULMOD then MulMod(a, b, c)
    else if op == SIGNEXTEND then SignExtendByMask(a, b)
    else if op == SHL then Shl(a, b)
    else Shr(a, b)
  }

  function ConstantRules(): seq<Rule> {
    var a, b, c := Var(A), Var(B), Var(C);
    [ Fold(Op2(ADD, a, b)), Fold(Op2(MUL, a, b)), Fold(Op2(SUB, a, b)), Fold(Op2(DIV, a, b)),
      Fold(Op2(SDIV, a, b)), Fold(Op2(MOD, a, b)), Fold(Op2(SMOD, a, b)), Fold(Op2(EXP, a, b)),
      Fold(Op1(NOT, a)), Fold(Op2(LT, a, b)), Fold(Op2(GT, a, b)), Fold(Op2(SLT, a, b)),
      Fold(Op2(SGT, a, b)), Fold(Op2(EQ, a, b)), Fold(Op1(ISZERO, a)), Fold(Op2(AND, a, b)),
      Fold(Op2(OR, a, b)), Fold(Op2(XOR, a, b)), Fold(Op2(BYTE, a, b)),
      Fold(Op3(ADDMOD, a, b, c)), Fold(Op3(MULMOD, a, b, c)) ]
  }

  /** Repeats the pattern of the rule before it, with a wrong result. */
  function ShadowedRule(): Rule {
    Rule(Op3(MULMOD, Var(A), Var(B), Var(C)), FoldedProduct)
  }

  function ShiftRules(): seq<Rule> {
    var a, b := Var(A), Var(B);
    [ Fold(Op2(SIGNEXTEND, a, b)), Fold(Op2(SHL, a, b)), Fold(Op2(SHR, a, b)) ]
  }

  function KnownConstantRules(): seq<Rule> {
    var x, zero, one, ones := Var(X), Literal(0), Literal(1), Literal(MAX_WORD);
    [ To(Op2(ADD, x, zero), x),
      To(Op2(ADD, zero, x), x),
      To(Op2(SUB, x, zero), x),
      To(Op2(MUL, x, zero), zero),
      To(Op2(MUL, zero, x), zero),
      To(Op2(MUL, x, one), x),
      To(Op2(MUL, one, x), x),
      To(Op2(MUL, x, ones), Op2(SUB, zero, x)),
      To(Op2(MUL, ones, x), Op2(SUB, zero, x)),
      To(Op2(DIV, x, zero), zero),
      To(Op2(DIV, zero, x), zero),
      To(Op2(DIV, x, one), x),
      To(Op2(SDIV, x, zero), zero),
      To(Op2(SDIV, zero, x), zero),
      To(Op2(SDIV, x, one), x) ]
  }

  function KnownBitRules(): seq<Rule> {
    var x, zero, ones := Var(X), Literal(0), Literal(MAX_WORD);
    [ To(Op2(AND, x, ones), x),
      To(Op2(AND, ones, x), x),
      To(Op2(AND, x, zero), zero),
      To(Op2(AND, zero, x), zero),
      To(Op2(OR, x, zero), x),
      To(Op2(OR, zero, x), x),
      To(Op2(OR, x, ones), ones),
      To(Op2(OR, ones, x), ones),
      To(Op2(XOR, x, zero), x),
      To(Op2(XOR, zero, x), x),
      To(Op2(MOD, x, zero), zero),
      To(Op2(MOD, zero, x), zero),
      To(Op2(EQ, x, zero), Op1(ISZERO, x)),
      To(Op2(EQ, zero, x), Op1(ISZERO, x)) ]
  }

  function SelfRules(): seq<Rule> {
    var x, zero, one := Var(X), Literal(0), Literal(1);
    [ To(Op2(AND, x, x), x),
      To(Op2(OR, x, x), x),
      To(Op2(XOR, x, x), zero),
      To(Op2(SUB, x, x), zero),
      To(Op2(EQ, x, x), one),
      To(Op2(LT, x, x), zero),
      To(Op2(SLT, x, x), zero),
      To(Op2(GT, x, x), zero),
      To(Op2(SGT, x, x), zero),
      To(Op2(MOD, x, x), zero) ]
  }

  function LogicalRules(): seq<Rule> {
    var x, y, zero, ones := Var(X), Var(Y), Literal(0), Literal(MAX_WORD);
    [ To(Op1(NOT, Op1(NOT, x)), x),
      To(Op2(XOR, x, Op2(XOR, x, y)), y),
      To(Op2(XOR, x, Op2(XOR, y, x)), y),
      To(Op2(XOR, Op2(XOR, x, y), x), y),
      To(Op2(XOR, Op2(XOR, y, x), x), y),
      To(Op2(OR, x, Op2(AND, x, y)), x),
      To(Op2(OR, x, Op2(AND, y, x)), x),
      To(Op2(OR, Op2(AND, x, y), x), x),
      To(Op2(OR, Op2(AND, y, x), x), x),
      To(Op2(AND, x, Op2(OR, x, y)), x),
      To(Op2(AND, x, Op2(OR, y, x)), x),
      To(Op2(AND, Op2(OR, x, y), x), x),
      To(Op2(AND, Op2(OR, y, x), x), x),
      To(Op2(AND, x, Op1(NOT, x)), zero),
      To(Op2(AND, Op1(NOT, x), x), zero),
      To(Op2(OR, x, Op1(NOT, x)), ones),
      To(Op2(OR, Op1(NOT, x), x), ones) ]
  }

  /** MOD by a power of two, for every power that fits a word. */
  function ModRule(i: nat): Rule
    requires i < WORD_BITS
  {
    Pow2Bits();
    Pow2Monotone(i, WORD_BITS);
    To(Op2(MOD, Var(X), Literal(Pow2(i))), Op2(AND, Var(X), Literal(Pow2(i) - 1)))
  }

  function ModRules(): seq<Rule> {
    seq(WORD_BITS, i requires 0 <= i < WORD_BITS => ModRule(i))
  }

  function AddressRules(op: Opcode): seq<Rule> {
    [ To(Op2(AND, Op0(op), Literal(ADDRESS_BASE - 1)), Op0(op)),
      To(Op2(AND, Literal(ADDRESS_BASE - 1), Op0(op)), Op0(op)) ]
  }

  function DoubleNegationRule(op: Opcode): Rule {
    var e := Op2(op, Var(X), Var(Y));
    To(Op1(ISZERO, Op1(ISZERO, e)), e)
  }

  function NegationRules(): seq<Rule> {
    var x, y := Var(X), Var(Y);
    [ DoubleNegationRule(EQ),
      DoubleNegationRule(LT),
      DoubleNegationRule(SLT),
      DoubleNegationRule(GT),
      DoubleNegationRule(SGT),
      To(Op1(ISZERO, Op1(ISZERO, Op1(ISZERO, x))), Op1(ISZERO, x)),
      To(Op1(ISZERO, Op2(XOR, x, y)), Op2(EQ, x, y)) ]
  }

  predicate IsAssociative(op: Opcode) {
    op == ADD || op == MUL || op == AND || op == OR || op == XOR
  }

  function Combine(op: Opcode, a: Word, b: Word): Word {
    if op == ADD then Add(a, b)
    else if op == MUL then Mul(a, b)
    else if op == AND then And(a, b)
    else if op == OR then Or(a, b)
    else Xor(a, b)
  }

  /** Moving constants to the outside; xa is X op A or A op X. */
  function AssociativeRules(op: Opcode, xa: Pattern): seq<Rule> {
    var a, b, x, y := Var(A), Var(B), Var(X), Var(Y);
    [ Rule(Op2(op, xa, b), Combined(op)),
      To(Op2(op, xa, y), Op2(op, Op2(op, x, y), a)),
      Rule(Op2(op, b, xa), Combined(op)),
      To(Op2(op, y, xa), Op2(op, Op2(op, y, x), a)) ]
  }

  function AllAssociativeRules(op: Opcode): seq<Rule> {
    AssociativeRules(op, Op2(op, Var(X), Var(A))) + AssociativeRules(op, Op2(op, Var(A), Var(X)))
  }

  function AddSubRules(xa: Pattern): seq<Rule> {
    [ Rule(Op2(SUB, xa, Var(B)), Shifted(A, B)),
      Rule(Op2(SUB, Var(B), xa), Difference(B, A)) ]
  }

  function SubRules(): seq<Rule> {
    var a, b, x, y := Var(A), Var(B), Var(X), Var(Y);
    [ Rule(Op2(ADD, Op2(SUB, x, a), b), Shifted(B, A)),
      Rule(Op2(ADD, b, Op2(SUB, x, a)), Shifted(B, A)),
      Rule(Op2(SUB, Op2(SUB, x, a), b), LessSum),
      Rule(Op2(SUB, Op2(SUB, a, x), b), Difference(A, B)),
      To(Op2(SUB, Op2(ADD, x, a), y), Op2(ADD, Op2(SUB, x, y), a)),
      To(Op2(SUB, Op2(ADD, a, x), y), Op2(ADD, Op2(SUB, x, y), a)),
      To(Op2(SUB, x, Op2(ADD, y, a)), Op2(SUB, Op2(SUB, x, y), a)),
      To(Op2(SUB, x, Op2(ADD, a, y)), Op2(SUB, Op2(SUB, x, y), a)) ]
  }

  function RulesAfterShadowed(): seq<Rule> {
    ShiftRules() + KnownConstantRules() + KnownBitRules() + SelfRules() + LogicalRules() + ModRules()
    + AddressRules(ADDRESS) + AddressRules(CALLER) + AddressRules(ORIGIN) + AddressRules(COINBASE)
    + NegationRules()
    + AllAssociativeRules(ADD) + AllAssociativeRules(MUL) + AllAssociativeRules(AND)
    + AllAssociativeRules(OR) + AllAssociativeRules(XOR)
    + AddSubRules(Op2(ADD, Var(X), Var(A))) + AddSubRules(Op2(ADD, Var(A), Var(X)))
    + SubRules()
  }

  function RuleList(): seq<Rule> {
    ConstantRules() + [ShadowedRule()] + RulesAfterShadowed()
  }

  // ----- values -----

  /** What the match groups stand for. */
  datatype Vals = Vals(a: Word, b: Word, c: Word, x: Word, y: Word) {
    function Of(g: Group): Word {
      match g
      case A => a
      case B => b
      case C => c
      case X => x
      case Y => y
    }

    /** The data of a constant. */
    function Constant(g: Group): Word {
      if IsConstant(g) then Of(g) else 0
    }
  }

  /** The expression a rule produces, given the data of the constants. */
  function Result(action: Action, v: Vals): Pattern {
    match action
    case Is(p) => p
    case Folded(op) => Literal(FoldedValue(op, v.a, v.b, v.c))
    case FoldedProduct => Literal(Mul(v.a, v.b))
    case Combined(op) => Op2(op, Var(X), Literal(Combine(op, v.a, v.b)))
    case Shifted(up, down) =>
      var u, d := v.Constant(up), v.Constant(down);
      if u < d then Op2(SUB, Var(X), Literal(d - u)) else Op2(ADD, Var(X), Literal(u - d))
    case Difference(up, down) => Op2(SUB, Literal(Sub(v.Constant(up), v.Constant(down))), Var(X))
    case LessSum => Op2(SUB, Var(X), Literal(Add(v.a, v.b)))
  }

  function Value(env: Env, outside: int, p: Pattern, v: Vals): Word {
    match p
    case Var(g) => v.Of(g)
    case Literal(w) => w
    case Op0(op) => PureValue(env, outside, op, [])
    case Op1(op, q) => PureValue(env, outside, op, [Value(env, outside, q, v)])
    case Op2(op, q, r) => PureValue(env, outside, op, [Value(env, outside, q, v), Value(env, outside, r, v)])
    case Op3(op, q, r, s) =>
      PureValue(env, outside, op, [Value(env, outside, q, v), Value(env, outside, r, v), Value(env, outside, s, v)])
  }

  ghost predicate SoundFor(env: Env, outside: int, r: Rule, v: Vals) {
    Value(env, outside, r.pattern, v) == Value(env, outside, Result(r.action, v), v)
  }

  /** All rules hold for one choice of what the match groups stand for. */
  ghost predicate SoundAt(env: Env, outside: int, rules: seq<Rule>, v: Vals) {
    forall i | 0 <= i < |rules| :: SoundFor(env, outside, rules[i], v)
  }

  // ----- soundness of the rules -----

  lemma Table1(env: Env, outside: int, x: Word)
    ensures PureValue(env, outside, NOT, [x]) == Not(x)
    ensures PureValue(env, outside, ISZERO, [x]) == Bool(x == 0)
  {
  }

  lemma Table2(env: Env, outside: int, x: Word, y: Word)
    ensures PureValue(env, outside, ADD, [x, y]) == Add(x, y)
    ensures PureValue(env, outside, MUL, [x, y]) == Mul(x, y)
    ensures PureValue(env, outside, SUB, [x, y]) == Sub(x, y)
    ensures PureValue(env, outside, MOD, [x, y]) == Mod(x, y)
    ensures PureValue(env, outside, EQ, [x, y]) == Bool(x == y)
    ensures PureValue(env, outside, AND, [x, y]) == And(x, y)
    ensures PureValue(env, outside, OR, [x, y]) == Or(x, y)
    ensures PureValue(env, outside, XOR, [x, y]) == Xor(x, y)
  {
    hide Add, Mul, Sub, Mod, And, Or, Xor, Bool;
  }

  lemma TableCompare(env: Env, outside: int, x: Word, y: Word)
    ensures PureValue(env, outside, LT, [x, y]) == Bool(x < y)
    ensures PureValue(env, outside, GT, [x, y]) == Bool(x > y)
    ensures PureValue(env, outside, SLT, [x, y]) == Bool(ToSigned(x) < ToSigned(y))
    ensures PureValue(env, outside, SGT, [x, y]) == Bool(ToSigned(x) > ToSigned(y))
    ensures PureValue(env, outside, EQ, [x, y]) == Bool(x == y)
  {
    hide ToSigned, Bool;
  }

  lemma TableOther(env: Env, outside: int, x: Word, y: Word)
    ensures PureValue(env, outside, DIV, [x, y]) == Div(x, y)
    ensures PureValue(env, outside, SDIV, [x, y]) == SDiv(x, y)
    ensures PureValue(env, outside, SMOD, [x, y]) == SMod(x, y)
    ensures PureValue(env, outside, EXP, [x, y]) == Exp(x, y)
    ensures PureValue(env, outside, BYTE, [x, y]) == Byte(x, y)
    ensures PureValue(env, outside, SIGNEXTEND, [x, y]) == SignExtend(x, y)
    ensures PureValue(env, outside, SHL, [x, y]) == Shl(x, y)
    ensures PureValue(env, outside, SHR, [x, y]) == Shr(x, y)
  {
    hide Div, SDiv, SMod, Exp, Byte, SignExtend, Shl, Shr;
  }

  lemma Table3(env: Env, outside: int, x: Word, y: Word, z: Word)
    ensures PureValue(env, outside, ADDMOD, [x, y, z]) == AddMod(x, y, z)
    ensures PureValue(env, outside, MULMOD, [x, y, z]) == MulMod(x, y, z)
  {
    hide AddMod, MulMod;
  }

  lemma ByteMasked(a: Word, b: Word)
    ensures ByteByMask(a, b) == Byte(a, b)
  {
    if a < 32 {
      var n: nat :| n == 8;
      Pow2Small();
      BitMask(Shr(8 * (31 - a), b), n);
    }
  }

  lemma FillAbove(b: Word, k: nat)
    requires k < WORD_BITS
    ensures Pow2(k) < WORD_BASE
    ensures Or(b, Not(Pow2(k) - 1)) == b % Pow2(k) + WORD_BASE - Pow2(k)
    ensures And(b, Pow2(k) - 1) == b % Pow2(k)
  {
    hide BitOr, BitAnd;
    Pow2Bits();
    Pow2Monotone(k, WORD_BITS);
    BitFillHigh(b, k, WORD_BITS);
    BitMask(b, k);
  }

  lemma WrapWord(x: Word)
    ensures Wrap(x) == x
  {
  }

  lemma WrapNegative(x: int)
    requires -WORD_BASE <= x < 0
    ensures Wrap(x) == x + WORD_BASE
  {
    WrapStep(x);
  }

  lemma SignExtendMasked(a: Word, b: Word)
    ensures SignExtendByMask(a, b) == SignExtend(a, b)
  {
    hide And, Or, Wrap, Pow2;
    if a < 31 {
      var k := 8 * a + 7;
      var p := Pow2(k);
      FillAbove(b, k);
      SignBit(b, p);
      RemainderBound(b, p);
      var low := b % (2 * p);
      if (b / p) % 2 == 1 {
        WrapNegative(low - 2 * p);
      } else {
        WrapWord(low);
      }
    }
  }

  lemma RemainderBound(b: nat, p: nat)
    requires p > 0
    ensures 0 <= b % p < p && 0 <= b % (2 * p) < 2 * p
  {
  }

  lemma SignBit(b: nat, p: nat)
    requires p > 0
    ensures b % (2 * p) == b % p + (if (b / p) % 2 == 1 then p else 0)
  {
    var q, r := b / p, b % p;
    assert b == q * p + r;
    var q2 := q / 2;
    assert b == q2 * (2 * p) + (r + (q % 2) * p) by {
      assert q == 2 * q2 + q % 2;
      assert (2 * q2 + q % 2) * p == q2 * (2 * p) + (q % 2) * p;
    }
    DivModUnique(b, 2 * p, q2, r + (q % 2) * p);
  }

  predicate FoldOp1(op: Opcode) { op == NOT || op == ISZERO }

  predicate FoldOp2(op: Opcode) {
    || op == ADD || op == MUL || op == SUB || op == DIV || op == SDIV || op == MOD || op == SMOD || op == EXP
    || op == LT || op == GT || op == SLT || op == SGT || op == EQ || op == AND || op == OR || op == XOR
    || op == BYTE || op == SIGNEXTEND || op == SHL || op == SHR
  }

  predicate FoldOp3(op: Opcode) { op == ADDMOD || op == MULMOD }

  lemma FoldedCorrect(env: Env, outside: int, op: Opcode, a: Word, b: Word, c: Word)
    ensures FoldOp1(op) ==> PureValue(env, outside, op, [a]) == FoldedValue(op, a, b, c)
    ensures FoldOp2(op) ==> PureValue(env, outside, op, [a, b]) == FoldedValue(op, a, b, c)
    ensures FoldOp3(op) ==> PureValue(env, outside, op, [a, b, c]) == FoldedValue(op, a, b, c)
  {
    hide PureValue, Add, Mul, Sub, Div, SDiv, Mod, SMod, Exp, And, Or, Xor, Byte, AddMod, MulMod, ByteByMask, Not, Bool, ToSigned, Shl, Shr, SignExtend, SignExtendByMask;
    Table1(env, outside, a);
    Table2(env, outside, a, b);
    TableCompare(env, outside, a, b);
    TableOther(env, outside, a, b);
    Table3(env, outside, a, b, c);
    ByteMasked(a, b);
    SignExtendMasked(a, b);
  }

  predicate IsFold(p: Pattern) {
    || (p.Op1? && p.arg == Var(A) && FoldOp1(p.instr))
    || (p.Op2? && p.left == Var(A) && p.right == Var(B) && FoldOp2(p.instr))
    || (p.Op3? && p.first == Var(A) && p.second == Var(B) && p.third == Var(C) && FoldOp3(p.instr))
  }

  lemma ValueVars(env: Env, outside: int, v: Vals)
    ensures Value(env, outside, Var(A), v) == v.a && Value(env, outside, Var(B), v) == v.b
    ensures Value(env, outside, Var(C), v) == v.c
    ensures Value(env, outside, Var(X), v) == v.x && Value(env, outside, Var(Y), v) == v.y
  {
  }

  lemma FoldSound(env: Env, outside: int, p: Pattern, v: Vals)
    requires IsFold(p)
    ensures SoundFor(env, outside, Fold(p), v)
  {
    hide PureValue, FoldedValue, FoldOp1, FoldOp2, FoldOp3;
    FoldedCorrect(env, outside, p.instr, v.a, v.b, v.c);
    ValueVars(env, outside, v);
  }

  lemma FoldOps()
    ensures forall i | 0 <= i < |ConstantRules()| ::
              IsFold(ConstantRules()[i].pattern) && ConstantRules()[i] == Fold(ConstantRules()[i].pattern)
    ensures forall i | 0 <= i < |ShiftRules()| ::
              IsFold(ShiftRules()[i].pattern) && ShiftRules()[i] == Fold(ShiftRules()[i].pattern)
  {
  }

  lemma ConstantRulesSound(env: Env, outside: int, v: Vals)
    ensures SoundAt(env, outside, ConstantRules(), v)
    ensures SoundAt(env, outside, ShiftRules(), v)
  {
    hide PureValue, FoldedValue, IsFold, ConstantRules, ShiftRules;
    FoldOps();
    forall i | 0 <= i < |ConstantRules()|
      ensures SoundFor(env, outside, ConstantRules()[i], v)
    {
      FoldSound(env, outside, ConstantRules()[i].pattern, v);
    }
    forall i | 0 <= i < |ShiftRules()|
      ensures SoundFor(env, outside, ShiftRules()[i], v)
    {
      FoldSound(env, outside, ShiftRules()[i].pattern, v);
    }
  }

  lemma SDivFacts(x: Word)
    ensures SDiv(x, 0) == 0 && SDiv(0, x) == 0 && SDiv(x, 1) == x
  {
    var s := ToSigned(x);
    if x != 0 {
      assert Abs(0) / Abs(s) == 0 by { DivModUnique(0, Abs(s), 0, 0); }
    }
    assert Abs(s) / Abs(1) == Abs(s);
    assert TruncDiv(s, 1) == s;
    WrapStep(s);
  }

  lemma MulMinusOne(x: Word)
    ensures Mul(x, MAX_WORD) == Sub(0, x) && Mul(MAX_WORD, x) == Sub(0, x)
  {
    hide Wrap;
    assert x * MAX_WORD == 0 - x + x * WORD_BASE;
    WrapMultiple(0 - x, x);
    assert MAX_WORD * x == x * MAX_WORD;
  }

  lemma KnownConstantFacts(x: Word)
    ensures Add(x, 0) == x && Add(0, x) == x && Sub(x, 0) == x
    ensures Mul(x, 0) == 0 && Mul(0, x) == 0 && Mul(x, 1) == x && Mul(1, x) == x
    ensures Mul(x, MAX_WORD) == Sub(0, x) && Mul(MAX_WORD, x) == Sub(0, x)
    ensures Div(x, 0) == 0 && Div(0, x) == 0 && Div(x, 1) == x
  {
    hide Wrap;
    WrapWord(x);
    WrapWord(0);
    MulMinusOne(x);
    if x != 0 {
      DivModUnique(0, x, 0, 0);
    }
  }

  lemma KnownConstantValues(env: Env, outside: int, v: Vals)
    ensures Value(env, outside, Op2(ADD, Var(X), Literal(0)), v) == Value(env, outside, Var(X), v)
    ensures Value(env, outside, Op2(ADD, Literal(0), Var(X)), v) == Value(env, outside, Var(X), v)
    ensures Value(env, outside, Op2(SUB, Var(X), Literal(0)), v) == Value(env, outside, Var(X), v)
    ensures Value(env, outside, Op2(MUL, Var(X), Literal(0)), v) == Value(env, outside, Literal(0), v)
    ensures Value(env, outside, Op2(MUL, Literal(0), Var(X)), v) == Value(env, outside, Literal(0), v)
    ensures Value(env, outside, Op2(MUL, Var(X), Literal(1)), v) == Value(env, outside, Var(X), v)
    ensures Value(env, outside, Op2(MUL, Literal(1), Var(X)), v) == Value(env, outside, Var(X), v)
    ensures Value(env, outside, Op2(MUL, Var(X), Literal(MAX_WORD)), v) == Value(env, outside, Op2(SUB, Literal(0), Var(X)), v)
    ensures Value(env, outside, Op2(MUL, Literal(MAX_WORD), Var(X)), v) == Value(env, outside, Op2(SUB, Literal(0), Var(X)), v)
  {
    hide PureValue, Add, Mul, Sub, Div;
    KnownConstantFacts(v.x);
    Table2(env, outside, v.x, 0); Table2(env, outside, 0, v.x);
    Table2(env, outside, v.x, 1); Table2(env, outside, 1, v.x);
    Table2(env, outside, v.x, MAX_WORD); Table2(env, outside, MAX_WORD, v.x);
  }

  lemma KnownDivisorValues(env: Env, outside: int, v: Vals)
    ensures Value(env, outside, Op2(DIV, Var(X), Literal(0)), v) == Value(env, outside, Literal(0), v)
    ensures Value(env, outside, Op2(DIV, Literal(0), Var(X)), v) == Value(env, outside, Literal(0), v)
    ensures Value(env, outside, Op2(DIV, Var(X), Literal(1)), v) == Value(env, outside, Var(X), v)
    ensures Value(env, outside, Op2(SDIV, Var(X), Literal(0)), v) == Value(env, outside, Literal(0), v)
    ensures Value(env, outside, Op2(SDIV, Literal(0), Var(X)), v) == Value(env, outside, Literal(0), v)
    ensures Value(env, outside, Op2(SDIV, Var(X), Literal(1)), v) == Value(env, outside, Var(X), v)
  {
    hide PureValue, Add, Mul, Sub, Div, SDiv;
    KnownConstantFacts(v.x);
    SDivFacts(v.x);
    TableOther(env, outside, v.x, 0); TableOther(env, outside, 0, v.x); TableOther(env, outside, v.x, 1);
  }

  lemma KnownBitFacts(x: Word)
    ensures And(x, MAX_WORD) == x && And(MAX_WORD, x) == x && And(x, 0) == 0 && And(0, x) == 0
    ensures Or(x, 0) == x && Or(0, x) == x && Or(x, MAX_WORD) == MAX_WORD && Or(MAX_WORD, x) == MAX_WORD
    ensures Xor(x, 0) == x && Xor(0, x) == x
  {
    Pow2Bits();
    BitMaskSmall(x, WORD_BITS);
    BitAndComm(x, MAX_WORD);
    BitAndZero(x);
    BitOrFull(x, WORD_BITS);
    BitOrComm(x, MAX_WORD);
    BitOrComm(x, 0);
    BitXorComm(x, 0);
  }

  lemma KnownBitValues(env: Env, outside: int, v: Vals)
    ensures Value(env, outside, Op2(AND, Var(X), Literal(MAX_WORD)), v) == Value(env, outside, Var(X), v)
    ensures Value(env, outside, Op2(AND, Literal(MAX_WORD), Var(X)), v) == Value(env, outside, Var(X), v)
    ensures Value(env, outside, Op2(AND, Var(X), Literal(0)), v) == Value(env, outside, Literal(0), v)
    ensures Value(env, outside, Op2(AND, Literal(0), Var(X)), v) == Value(env, outside, Literal(0), v)
    ensures Value(env, outside, Op2(OR, Var(X), Literal(0)), v) == Value(env, outside, Var(X), v)
    ensures Value(env, outside, Op2(OR, Literal(0), Var(X)), v) == Value(env, outside, Var(X), v)
    ensures Value(env, outside, Op2(OR, Var(X), Literal(MAX_WORD)), v) == Value(env, outside, Literal(MAX_WORD), v)
    ensures Value(env, outside, Op2(OR, Literal(MAX_WORD), Var(X)), v) == Value(env, outside, Literal(MAX_WORD), v)
    ensures Value(env, outside, Op2(XOR, Var(X), Literal(0)), v) == Value(env, outside, Var(X), v)
    ensures Value(env, outside, Op2(XOR, Literal(0), Var(X)), v) == Value(env, outside, Var(X), v)
    ensures Value(env, outside, Op2(MOD, Var(X), Literal(0)), v) == Value(env, outside, Literal(0), v)
    ensures Value(env, outside, Op2(MOD, Literal(0), Var(X)), v) == Value(env, outside, Literal(0), v)
    ensures Value(env, outside, Op2(EQ, Var(X), Literal(0)), v) == Value(env, outside, Op1(ISZERO, Var(X)), v)
    ensures Value(env, outside, Op2(EQ, Literal(0), Var(X)), v) == Value(env, outside, Op1(ISZERO, Var(X)), v)
  {
    hide PureValue, And, Or, Xor;
    KnownBitFacts(v.x);
    Table1(env, outside, v.x);
    Table2(env, outside, v.x, 0); Table2(env, outside, 0, v.x);
    Table2(env, outside, v.x, MAX_WORD); Table2(env, outside, MAX_WORD, v.x);
  }

  lemma SelfFacts(x: Word)
    ensures And(x, x) == x && Or(x, x) == x && Xor(x, x) == 0 && Sub(x, x) == 0 && Mod(x, x) == 0
  {
    BitSelf(x);
    if x != 0 {
      DivModUnique(x, x, 1, 0);
    }
  }

  lemma SelfValues(env: Env, outside: int, v: Vals)
    ensures Value(env, outside, Op2(AND, Var(X), Var(X)), v) == Value(env, outside, Var(X), v)
    ensures Value(env, outside, Op2(OR, Var(X), Var(X)), v) == Value(env, outside, Var(X), v)
    ensures Value(env, outside, Op2(XOR, Var(X), Var(X)), v) == Value(env, outside, Literal(0), v)
    ensures Value(env, outside, Op2(SUB, Var(X), Var(X)), v) == Value(env, outside, Literal(0), v)
    ensures Value(env, outside, Op2(EQ, Var(X), Var(X)), v) == Value(env, outside, Literal(1), v)
    ensures Value(env, outside, Op2(LT, Var(X), Var(X)), v) == Value(env, outside, Literal(0), v)
    ensures Value(env, outside, Op2(SLT, Var(X), Var(X)), v) == Value(env, outside, Literal(0), v)
    ensures Value(env, outside, Op2(GT, Var(X), Var(X)), v) == Value(env, outside, Literal(0), v)
    ensures Value(env, outside, Op2(SGT, Var(X), Var(X)), v) == Value(env, outside, Literal(0), v)
    ensures Value(env, outside, Op2(MOD, Var(X), Var(X)), v) == Value(env, outside, Literal(0), v)
  {
    hide PureValue, And, Or, Xor, Sub, Mod;
    SelfFacts(v.x);
    Table2(env, outside, v.x, v.x);
    TableCompare(env, outside, v.x, v.x);
  }

  lemma XorFacts(x: Word, y: Word)
    ensures Xor(x, Xor(x, y)) == y && Xor(x, Xor(y, x)) == y && Xor(Xor(x, y), x) == y && Xor(Xor(y, x), x) == y
  {
    hide BitXor;
    BitXorCancel(x, y);
    BitXorComm(x, y);
    BitXorComm(x, BitXor(x, y));
  }

  lemma AbsorptionFacts(x: Word, y: Word)
    ensures Or(x, And(x, y)) == x && Or(x, And(y, x)) == x && Or(And(x, y), x) == x && Or(And(y, x), x) == x
    ensures And(x, Or(x, y)) == x && And(x, Or(y, x)) == x && And(Or(x, y), x) == x && And(Or(y, x), x) == x
  {
    hide BitAnd, BitOr;
    BitAbsorb(x, y);
    BitAndComm(x, y);
    BitOrComm(x, y);
    BitOrComm(x, BitAnd(x, y));
    BitAndComm(x, BitOr(x, y));
  }

  lemma ComplementFacts(x: Word)
    ensures Not(Not(x)) == x
    ensures And(x, Not(x)) == 0 && And(Not(x), x) == 0 && Or(x, Not(x)) == MAX_WORD && Or(Not(x), x) == MAX_WORD
  {
    hide BitAnd, BitOr;
    Pow2Bits();
    BitComplement(x, Not(x), WORD_BITS);
    BitAndComm(x, Not(x));
    BitOrComm(x, Not(x));
  }

  lemma TableAndOr(env: Env, outside: int, x: Word, y: Word)
    ensures PureValue(env, outside, AND, [x, y]) == And(x, y)
    ensures PureValue(env, outside, OR, [x, y]) == Or(x, y)
  {
    hide PureValue;
    Table2(env, outside, x, y);
  }

  lemma XorValues(env: Env, outside: int, v: Vals)
    ensures Value(env, outside, Op1(NOT, Op1(NOT, Var(X))), v) == Value(env, outside, Var(X), v)
    ensures Value(env, outside, Op2(XOR, Var(X), Op2(XOR, Var(X), Var(Y))), v) == Value(env, outside, Var(Y), v)
    ensures Value(env, outside, Op2(XOR, Var(X), Op2(XOR, Var(Y), Var(X))), v) == Value(env, outside, Var(Y), v)
    ensures Value(env, outside, Op2(XOR, Op2(XOR, Var(X), Var(Y)), Var(X)), v) == Value(env, outside, Var(Y), v)
    ensures Value(env, outside, Op2(XOR, Op2(XOR, Var(Y), Var(X)), Var(X)), v) == Value(env, outside, Var(Y), v)
  {
    hide PureValue, And, Or, Xor, Not;
    var x, y := v.x, v.y;
    XorFacts(x, y);
    ComplementFacts(x);
    Table1(env, outside, x); Table1(env, outside, Not(x));
    Table2(env, outside, x, y); Table2(env, outside, y, x);
    Table2(env, outside, x, Xor(x, y)); Table2(env, outside, x, Xor(y, x));
    Table2(env, outside, Xor(x, y), x); Table2(env, outside, Xor(y, x), x);
  }

  lemma OrAbsorptionValues(env: Env, outside: int, v: Vals)
    ensures Value(env, outside, Op2(OR, Var(X), Op2(AND, Var(X), Var(Y))), v) == Value(env, outside, Var(X), v)
    ensures Value(env, outside, Op2(OR, Var(X), Op2(AND, Var(Y), Var(X))), v) == Value(env, outside, Var(X), v)
    ensures Value(env, outside, Op2(OR, Op2(AND, Var(X), Var(Y)), Var(X)), v) == Value(env, outside, Var(X), v)
    ensures Value(env, outside, Op2(OR, Op2(AND, Var(Y), Var(X)), Var(X)), v) == Value(env, outside, Var(X), v)
  {
    hide PureValue, And, Or, Xor, Not;
    var x, y := v.x, v.y;
    AbsorptionFacts(x, y);
    TableAndOr(env, outside, x, y); TableAndOr(env, outside, y, x);
    TableAndOr(env, outside, x, And(x, y)); TableAndOr(env, outside, x, And(y, x));
    TableAndOr(env, outside, And(x, y), x); TableAndOr(env, outside, And(y, x), x);
    ValueVars(env, outside, v);
    assert Value(env, outside, Op2(AND, Var(X), Var(Y)), v) == And(x, y);
    assert Value(env, outside, Op2(AND, Var(Y), Var(X)), v) == And(y, x);
  }

  lemma AndAbsorptionValues(env: Env, outside: int, v: Vals)
    ensures Value(env, outside, Op2(AND, Var(X), Op2(OR, Var(X), Var(Y))), v) == Value(env, outside, Var(X), v)
    ensures Value(env, outside, Op2(AND, Var(X), Op2(OR, Var(Y), Var(X))), v) == Value(env, outside, Var(X), v)
    ensures Value(env, outside, Op2(AND, Op2(OR, Var(X), Var(Y)), Var(X)), v) == Value(env, outside, Var(X), v)
    ensures Value(env, outside, Op2(AND, Op2(OR, Var(Y), Var(X)), Var(X)), v) == Value(env, outside, Var(X), v)
  {
    hide PureValue, And, Or, Xor, Not;
    var x, y := v.x, v.y;
    AbsorptionFacts(x, y);
    TableAndOr(env, outside, x, y); TableAndOr(env, outside, y, x);
    TableAndOr(env, outside, x, Or(x, y)); TableAndOr(env, outside, x, Or(y, x));
    TableAndOr(env, outside, Or(x, y), x); TableAndOr(env, outside, Or(y, x), x);
    ValueVars(env, outside, v);
    assert Value(env, outside, Op2(OR, Var(X), Var(Y)), v) == Or(x, y);
    assert Value(env, outside, Op2(OR, Var(Y), Var(X)), v) == Or(y, x);
  }

  lemma ComplementValues(env: Env, outside: int, v: Vals)
    ensures Value(env, outside, Op2(AND, Var(X), Op1(NOT, Var(X))), v) == Value(env, outside, Literal(0), v)
    ensures Value(env, outside, Op2(AND, Op1(NOT, Var(X)), Var(X)), v) == Value(env, outside, Literal(0), v)
    ensures Value(env, outside, Op2(OR, Var(X), Op1(NOT, Var(X))), v) == Value(env, outside, Literal(MAX_WORD), v)
    ensures Value(env, outside, Op2(OR, Op1(NOT, Var(X)), Var(X)), v) == Value(env, outside, Literal(MAX_WORD), v)
  {
    hide PureValue, And, Or, Xor, Not;
    var x := v.x;
    ComplementFacts(x);
    Table1(env, outside, x);
    Table2(env, outside, x, Not(x)); Table2(env, outside, Not(x), x);
  }

  lemma KnownRulesSound(env: Env, outside: int, v: Vals)
    ensures SoundAt(env, outside, KnownConstantRules(), v)
    ensures SoundAt(env, outside, KnownBitRules(), v)
  {
    hide PureValue, Value;
    KnownConstantValues(env, outside, v);
    KnownDivisorValues(env, outside, v);
    KnownBitValues(env, outside, v);
  }

  lemma SelfRulesSound(env: Env, outside: int, v: Vals)
    ensures SoundAt(env, outside, SelfRules(), v)
  {
    hide PureValue, Value;
    SelfValues(env, outside, v);
    XorValues(env, outside, v);
    ComplementValues(env, outside, v);
  }

  lemma LogicalRulesSound(env: Env, outside: int, v: Vals)
    ensures SoundAt(env, outside, LogicalRules(), v)
  {
    hide PureValue, Value;
    XorValues(env, outside, v);
    OrAbsorptionValues(env, outside, v);
    AndAbsorptionValues(env, outside, v);
    ComplementValues(env, outside, v);
  }

  lemma FixedRulesSound(env: Env, outside: int, v: Vals)
    ensures SoundAt(env, outside, KnownConstantRules(), v)
    ensures SoundAt(env, outside, KnownBitRules(), v)
    ensures SoundAt(env, outside, SelfRules(), v)
    ensures SoundAt(env, outside, LogicalRules(), v)
  {
    hide PureValue, SoundAt;
    KnownRulesSound(env, outside, v);
    SelfRulesSound(env, outside, v);
    LogicalRulesSound(env, outside, v);
  }

  lemma ModRuleSound(env: Env, outside: int, i: nat, v: Vals)
    requires i < WORD_BITS
    ensures SoundFor(env, outside, ModRule(i), v)
  {
    hide PureValue, And, Mod;
    Pow2Bits();
    Pow2Monotone(i, WORD_BITS);
    var p: Word := Pow2(i);
    ModAsMask(v.x, i);
    var m: Word := p - 1;
    Table2(env, outside, v.x, p);
    TableAndOr(env, outside, v.x, m);
    ValueVars(env, outside, v);
    assert Value(env, outside, Literal(p), v) == p && Value(env, outside, Literal(m), v) == m;
    assert Value(env, outside, Op2(MOD, Var(X), Literal(p)), v) == Mod(v.x, p);
    assert Value(env, outside, Op2(AND, Var(X), Literal(m)), v) == And(v.x, m);
  }

  lemma ModAsMask(x: Word, i: nat)
    requires i < WORD_BITS
    ensures Pow2(i) < WORD_BASE
    ensures Mod(x, Pow2(i)) == And(x, Pow2(i) - 1)
  {
    Pow2Bits();
    Pow2Monotone(i, WORD_BITS);
    BitMask(x, i);
  }

  lemma AddressRulesSound(env: Env, outside: int, op: Opcode, v: Vals)
    requires AddressesFit(env)
    requires op == ADDRESS || op == CALLER || op == ORIGIN || op == COINBASE
    ensures SoundAt(env, outside, AddressRules(op), v)
  {
    hide PureValue, And, AddressesFit;
    AddressQuery(env, outside, op);
    var m: Word := ADDRESS_BASE - 1;
    var x := PureValue(env, outside, op, []);
    assert Value(env, outside, Op0(op), v) == x;
    TableAndOr(env, outside, x, m);
    TableAndOr(env, outside, m, x);
    AddressMask(x);
    assert Value(env, outside, Literal(m), v) == m;
    var rs := AddressRules(op);
    assert SoundFor(env, outside, rs[0], v);
    assert SoundFor(env, outside, rs[1], v);
  }

  lemma AddressQuery(env: Env, outside: int, op: Opcode)
    requires AddressesFit(env)
    requires op == ADDRESS || op == CALLER || op == ORIGIN || op == COINBASE
    ensures PureValue(env, outside, op, []) < ADDRESS_BASE
  {
  }

  lemma AddressMask(x: Word)
    requires x < ADDRESS_BASE
    ensures And(x, ADDRESS_BASE - 1) == x && And(ADDRESS_BASE - 1, x) == x
  {
    Pow2Bits();
    BitMaskSmall(x, ADDRESS_BITS);
    BitAndComm(x, ADDRESS_BASE - 1);
  }

  /** Two of the values computed by comparisons. */
  lemma NegationRulesSound(env: Env, outside: int, v: Vals)
    ensures SoundAt(env, outside, NegationRules(), v)
  {
    hide PureValue, Xor;
    var x, y := v.x, v.y;
    TableCompare(env, outside, x, y);
    Table1(env, outside, 0);
    Table1(env, outside, 1);
    Table1(env, outside, x);
    ValueVars(env, outside, v);
    assert Bool(x == 0) == 0 || Bool(x == 0) == 1;
    var rs := NegationRules();
    DoubleNegationSound(env, outside, EQ, v);
    DoubleNegationSound(env, outside, LT, v);
    DoubleNegationSound(env, outside, SLT, v);
    DoubleNegationSound(env, outside, GT, v);
    DoubleNegationSound(env, outside, SGT, v);
    assert SoundFor(env, outside, rs[5], v) by {
      var z := Op1(ISZERO, Var(X));
      assert Value(env, outside, z, v) == Bool(x == 0);
      assert Value(env, outside, Op1(ISZERO, z), v) == Bool(x != 0);
      assert Value(env, outside, Op1(ISZERO, Op1(ISZERO, z)), v) == Bool(x == 0);
    }
    assert SoundFor(env, outside, rs[6], v) by {
      Table2(env, outside, x, y);
      Table1(env, outside, Xor(x, y));
      XorIsZero(x, y);
      assert Value(env, outside, Op2(XOR, Var(X), Var(Y)), v) == Xor(x, y);
    }
  }

  lemma XorIsZero(x: Word, y: Word)
    ensures Xor(x, y) == 0 <==> x == y
  {
    BitXorZero(x, y);
  }

  lemma DoubleNegationSound(env: Env, outside: int, op: Opcode, v: Vals)
    requires op == EQ || op == LT || op == SLT || op == GT || op == SGT
    ensures SoundFor(env, outside, DoubleNegationRule(op), v)
  {
    hide PureValue;
    TableCompare(env, outside, v.x, v.y);
    ValueVars(env, outside, v);
    Table1(env, outside, 0);
    Table1(env, outside, 1);
    var e := Op2(op, Var(X), Var(Y));
    var b := Value(env, outside, e, v);
    assert b == 0 || b == 1;
    assert Value(env, outside, Op1(ISZERO, e), v) == 1 - b;
    assert Value(env, outside, Op1(ISZERO, Op1(ISZERO, e)), v) == b;
  }

  lemma CombineLaws(op: Opcode, x: Word, y: Word, z: Word)
    requires IsAssociative(op)
    ensures Combine(op, x, y) == Combine(op, y, x)
    ensures Combine(op, Combine(op, x, y), z) == Combine(op, x, Combine(op, y, z))
  {
    hide BitAnd, BitOr, BitXor, Wrap;
    if op == ADD {
      WrapAdd(x + y, z);
      WrapAdd(y + z, x);
    } else if op == MUL {
      assert x * y == y * x;
      WrapMul(x * y, z);
      WrapMul(y * z, x);
      assert (x * y) * z == (y * z) * x == x * (y * z);
      assert Wrap(y * z) * x == x * Wrap(y * z);
    } else {
      BitAndComm(x, y);
      BitOrComm(x, y);
      BitXorComm(x, y);
      BitAndAssoc(x, y, z);
      BitOrAssoc(x, y, z);
      BitXorAssoc(x, y, z);
    }
  }

  lemma TableCombine(env: Env, outside: int, op: Opcode, x: Word, y: Word)
    requires IsAssociative(op)
    ensures PureValue(env, outside, op, [x, y]) == Combine(op, x, y)
  {
    hide PureValue;
    Table2(env, outside, x, y);
  }

  /** The value of X op A, which is also that of A op X. */
  lemma AssociativeRulesSound(env: Env, outside: int, op: Opcode, xa: Pattern, v: Vals)
    requires IsAssociative(op)
    requires xa == Op2(op, Var(X), Var(A)) || xa == Op2(op, Var(A), Var(X))
    ensures SoundAt(env, outside, AssociativeRules(op, xa), v)
  {
    hide PureValue, Combine, IsAssociative;
    var a, b, x, y := v.a, v.b, v.x, v.y;
    ValueVars(env, outside, v);
    TableCombine(env, outside, op, x, a);
    TableCombine(env, outside, op, a, x);
    CombineLaws(op, x, a, b);
    var s := Combine(op, x, a);
    assert Value(env, outside, xa, v) == s;
    var rs := AssociativeRules(op, xa);
    var ab := Combine(op, a, b);
    TableCombine(env, outside, op, s, b);
    TableCombine(env, outside, op, b, s);
    TableCombine(env, outside, op, x, ab);
    CombineLaws(op, b, s, b);
    assert SoundFor(env, outside, rs[0], v) && SoundFor(env, outside, rs[2], v) by {
      assert Value(env, outside, Literal(ab), v) == ab;
    }
    TableCombine(env, outside, op, x, y);
    TableCombine(env, outside, op, y, x);
    TableCombine(env, outside, op, s, y);
    TableCombine(env, outside, op, y, s);
    var xy, yx := Combine(op, x, y), Combine(op, y, x);
    TableCombine(env, outside, op, xy, a);
    TableCombine(env, outside, op, yx, a);
    CombineLaws(op, x, a, y);
    CombineLaws(op, a, y, a);
    CombineLaws(op, x, y, a);
    CombineLaws(op, y, x, a);
    assert SoundFor(env, outside, rs[1], v) by {
      assert Value(env, outside, Op2(op, Var(X), Var(Y)), v) == xy;
    }
    assert SoundFor(env, outside, rs[3], v) by {
      assert Value(env, outside, Op2(op, Var(Y), Var(X)), v) == yx;
    }
  }

  lemma AddSubFacts(x: Word, a: Word, b: Word)
    ensures Add(x, a) == Add(a, x)
    ensures Sub(Add(x, a), b) == Wrap(x + a - b)
    ensures Sub(b, Add(x, a)) == Wrap(b - a - x) == Sub(Sub(b, a), x)
    ensures Add(Sub(x, a), b) == Wrap(x + b - a) == Add(b, Sub(x, a))
    ensures Sub(Sub(x, a), b) == Wrap(x - a - b) == Sub(x, Add(a, b))
  {
    hide Wrap;
    WrapAdd(x + a, -(b as int));
    WrapAdd(x + a, b);
    WrapAdd(b - a, -(x as int));
    WrapAdd(x - a, b);
    WrapAdd(x - a, -(b as int));
    WrapAdd(a + b, x);
  }

  lemma ShiftedValue(env: Env, outside: int, up: Group, down: Group, v: Vals)
    ensures Value(env, outside, Result(Shifted(up, down), v), v) == Wrap(v.x + v.Constant(up) - v.Constant(down))
  {
    hide PureValue, Wrap;
    var u, d := v.Constant(up), v.Constant(down);
    ValueVars(env, outside, v);
    if u < d {
      Table2(env, outside, v.x, d - u);
    } else {
      Table2(env, outside, v.x, u - d);
    }
  }

  lemma TableAddSub(env: Env, outside: int, x: Word, y: Word)
    ensures PureValue(env, outside, ADD, [x, y]) == Add(x, y)
    ensures PureValue(env, outside, SUB, [x, y]) == Sub(x, y)
  {
    hide PureValue;
    Table2(env, outside, x, y);
  }

  lemma AddSubRulesSound(env: Env, outside: int, xa: Pattern, v: Vals)
    requires xa == Op2(ADD, Var(X), Var(A)) || xa == Op2(ADD, Var(A), Var(X))
    ensures SoundAt(env, outside, AddSubRules(xa), v)
  {
    hide PureValue, Wrap, Add, Sub;
    var a, b, x := v.a, v.b, v.x;
    ValueVars(env, outside, v);
    TableAddSub(env, outside, x, a);
    TableAddSub(env, outside, a, x);
    AddSubFacts(x, a, b);
    var s := Add(x, a);
    assert Value(env, outside, xa, v) == s;
    var rs := AddSubRules(xa);
    assert SoundFor(env, outside, rs[0], v) by {
      ShiftedValue(env, outside, A, B, v);
      TableAddSub(env, outside, s, b);
    }
    assert SoundFor(env, outside, rs[1], v) by {
      TableAddSub(env, outside, b, s);
      TableAddSub(env, outside, Sub(b, a), x);
      assert Value(env, outside, Literal(Sub(b, a)), v) == Sub(b, a);
    }
  }

  lemma SubRulesSound(env: Env, outside: int, v: Vals)
    ensures SoundAt(env, outside, SubRules(), v)
  {
    hide PureValue, Wrap, Add, Sub;
    var a, b, x, y := v.a, v.b, v.x, v.y;
    ValueVars(env, outside, v);
    var rs := SubRules();
    var xa, ax := Sub(x, a), Sub(a, x);
    TableAddSub(env, outside, x, a);
    TableAddSub(env, outside, a, x);
    assert Value(env, outside, Op2(SUB, Var(X), Var(A)), v) == xa;
    assert Value(env, outside, Op2(SUB, Var(A), Var(X)), v) == ax;
    assert SoundFor(env, outside, rs[0], v) && SoundFor(env, outside, rs[1], v) by {
      ShiftedValue(env, outside, B, A, v);
      TableAddSub(env, outside, xa, b);
      TableAddSub(env, outside, b, xa);
      AddSubFacts(x, a, b);
    }
    assert SoundFor(env, outside, rs[2], v) by {
      TableAddSub(env, outside, xa, b);
      TableAddSub(env, outside, x, Add(a, b));
      AddSubFacts(x, a, b);
      assert Value(env, outside, Literal(Add(a, b)), v) == Add(a, b);
    }
    assert SoundFor(env, outside, rs[3], v) by {
      TableAddSub(env, outside, ax, b);
      TableAddSub(env, outside, Sub(a, b), x);
      AddSubFacts(a, x, b);
      AddSubFacts(a, b, x);
      AddSubFacts(b, x, a);
      assert Value(env, outside, Literal(Sub(a, b)), v) == Sub(a, b);
    }
    MovedConstantsSound(env, outside, v);
  }

  /** The rules that move a constant across a subtraction. */
  lemma MovedConstantsSound(env: Env, outside: int, v: Vals)
    ensures forall i | 4 <= i < 8 :: SoundFor(env, outside, SubRules()[i], v)
  {
    hide PureValue, Wrap, Add, Sub;
    var a, x, y := v.a, v.x, v.y;
    ValueVars(env, outside, v);
    var rs := SubRules();
    var s, t, d := Add(x, a), Add(y, a), Sub(x, y);
    TableAddSub(env, outside, x, a);
    TableAddSub(env, outside, a, x);
    TableAddSub(env, outside, y, a);
    TableAddSub(env, outside, a, y);
    TableAddSub(env, outside, x, y);
    TableAddSub(env, outside, d, a);
    AddSubFacts(x, a, y);
    AddSubFacts(y, a, x);
    AddSubFacts(x, y, a);
    assert Value(env, outside, Op2(ADD, Var(X), Var(A)), v) == s;
    assert Value(env, outside, Op2(ADD, Var(A), Var(X)), v) == s;
    assert Value(env, outside, Op2(ADD, Var(Y), Var(A)), v) == t;
    assert Value(env, outside, Op2(ADD, Var(A), Var(Y)), v) == t;
    assert Value(env, outside, Op2(SUB, Var(X), Var(Y)), v) == d;
    TableAddSub(env, outside, s, y);
    TableAddSub(env, outside, x, t);
    assert SoundFor(env, outside, rs[4], v);
    assert SoundFor(env, outside, rs[5], v);
    assert SoundFor(env, outside, rs[6], v);
    assert SoundFor(env, outside, rs[7], v);
  }

  lemma SoundAtConcat(env: Env, outside: int, p: seq<Rule>, q: seq<Rule>, v: Vals)
    requires SoundAt(env, outside, p, v) && SoundAt(env, outside, q, v)
    ensures SoundAt(env, outside, p + q, v)
  {
    hide SoundFor;
  }

  predicate IsMemoryOp(op: Opcode) {
    op == SLOAD || op == MLOAD || op == SSTORE || op == MSTORE
  }

  /** Computes a value from n arguments alone. */
  predicate HasArity(op: Opcode, n: nat) {
    ArgCount(op) == n && IsPure(op) && IsDeterministic(op)
  }

  /** Patterns look at computed values only, never at loads and stores, with the right number of arguments. */
  predicate WellBuilt(p: Pattern) {
    match p
    case Var(_) => true
    case Literal(_) => true
    case Op0(op) => HasArity(op, 0)
    case Op1(op, q) => HasArity(op, 1) && WellBuilt(q)
    case Op2(op, q, r) => HasArity(op, 2) && WellBuilt(q) && WellBuilt(r)
    case Op3(op, q, r, s) => HasArity(op, 3) && WellBuilt(q) && WellBuilt(r) && WellBuilt(s)
  }

  /** No instruction with three arguments is asked for. */
  predicate AtMostTwo(p: Pattern) {
    match p
    case Op1(_, q) => AtMostTwo(q)
    case Op2(_, q, r) => AtMostTwo(q) && AtMostTwo(r)
    case Op3(_, _, _, _) => false
    case _ => true
  }

  predicate WellBuiltAction(action: Action) {
    match action
    case Is(p) => WellBuilt(p) && AtMostTwo(p)
    case Combined(op) => HasArity(op, 2)
    case _ => true
  }

  predicate WellBuiltRules(rules: seq<Rule>) {
    forall i | 0 <= i < |rules| :: WellBuilt(rules[i].pattern) && WellBuiltAction(rules[i].action)
  }

  lemma Arities()
    ensures HasArity(NOT, 1) && HasArity(ISZERO, 1)
    ensures HasArity(ADD, 2) && HasArity(MUL, 2) && HasArity(SUB, 2) && HasArity(MOD, 2) && HasArity(EQ, 2)
    ensures HasArity(AND, 2) && HasArity(OR, 2) && HasArity(XOR, 2)
    ensures HasArity(LT, 2) && HasArity(GT, 2) && HasArity(SLT, 2) && HasArity(SGT, 2)
    ensures HasArity(DIV, 2) && HasArity(SDIV, 2) && HasArity(SMOD, 2) && HasArity(EXP, 2) && HasArity(BYTE, 2)
    ensures HasArity(SIGNEXTEND, 2) && HasArity(SHL, 2) && HasArity(SHR, 2)
    ensures HasArity(ADDMOD, 3) && HasArity(MULMOD, 3)
    ensures HasArity(ADDRESS, 0) && HasArity(CALLER, 0) && HasArity(ORIGIN, 0) && HasArity(COINBASE, 0)
  {
    hide HasArity;
    Arity(NOT, 1);
    Arity(ISZERO, 1);
    Arity(ADD, 2);
    Arity(MUL, 2);
    Arity(SUB, 2);
    Arity(MOD, 2);
    Arity(EQ, 2);
    Arity(AND, 2);
    Arity(OR, 2);
    Arity(XOR, 2);
    Arity(LT, 2);
    Arity(GT, 2);
    Arity(SLT, 2);
    Arity(SGT, 2);
    Arity(DIV, 2);
    Arity(SDIV, 2);
    Arity(SMOD, 2);
    Arity(EXP, 2);
    Arity(BYTE, 2);
    Arity(SIGNEXTEND, 2);
    Arity(SHL, 2);
    Arity(SHR, 2);
    Arity(ADDMOD, 3);
    Arity(MULMOD, 3);
    AddressArity();
  }

  lemma Arity(op: Opcode, n: nat)
    requires IsArithmetic(op) && ArgCount(op) == n
    ensures HasArity(op, n)
  {
    hide ArgCount;
  }

  lemma AddressArity()
    ensures HasArity(ADDRESS, 0) && HasArity(CALLER, 0) && HasArity(ORIGIN, 0) && HasArity(COINBASE, 0)
  {
  }

  lemma ResultWellBuilt(action: Action, v: Vals)
    requires WellBuiltAction(action)
    ensures WellBuilt(Result(action, v)) && AtMostTwo(Result(action, v))
  {
    hide FoldedValue, Combine, Mul, Add, Sub, HasArity;
    Arities();
  }

  lemma ConstantListsWellBuilt()
    ensures WellBuiltRules(ConstantRules()) && WellBuiltRules(ShiftRules())
  {
    hide FoldedValue, HasArity;
    Arities();
  }

  /** One instruction over variables and literals. */
  predicate ShallowPattern(p: Pattern) {
    || p.Var? || p.Literal?
    || (p.Op1? && p.arg.Var? && HasArity(p.instr, 1))
    || (p.Op2? && (p.left.Var? || p.left.Literal?) && (p.right.Var? || p.right.Literal?) && HasArity(p.instr, 2))
  }

  predicate ShallowRules(rules: seq<Rule>) {
    forall i | 0 <= i < |rules| ::
      ShallowPattern(rules[i].pattern) && rules[i].action.Is? && ShallowPattern(rules[i].action.result)
  }

  lemma ShallowWellBuilt(rules: seq<Rule>)
    requires ShallowRules(rules)
    ensures WellBuiltRules(rules)
  {
    hide HasArity;
    forall i | 0 <= i < |rules|
      ensures WellBuilt(rules[i].pattern) && WellBuiltAction(rules[i].action)
    {
      ShallowIsWellBuilt(rules[i].pattern);
      ShallowIsWellBuilt(rules[i].action.result);
    }
  }

  lemma ShallowIsWellBuilt(p: Pattern)
    requires ShallowPattern(p)
    ensures WellBuilt(p) && AtMostTwo(p)
  {
    hide HasArity;
  }

  lemma KnownListsWellBuilt()
    ensures WellBuiltRules(KnownConstantRules()) && WellBuiltRules(KnownBitRules()) && WellBuiltRules(SelfRules())
  {
    hide HasArity, WellBuilt;
    Arities();
    ShallowWellBuilt(KnownConstantRules());
    ShallowWellBuilt(KnownBitRules());
    ShallowWellBuilt(SelfRules());
  }

  lemma LogicalWellBuilt()
    ensures WellBuiltRules(LogicalRules())
  {
    hide HasArity;
    Arities();
  }

  lemma SmallPattern(op: Opcode, g: Group, h: Group)
    ensures AtMostTwo(Op2(op, Var(g), Var(h)))
  {
  }

  lemma SmallNested(op: Opcode, g: Group, h: Group, k: Group)
    ensures AtMostTwo(Op2(op, Op2(op, Var(g), Var(h)), Var(k)))
  {
    SmallPattern(op, g, h);
  }

  lemma DoubleNegationWellBuilt(op: Opcode)
    requires HasArity(op, 2)
    ensures WellBuilt(DoubleNegationRule(op).pattern) && WellBuiltAction(DoubleNegationRule(op).action)
  {
    hide HasArity;
    Arities();
    SmallPattern(op, X, Y);
    assert WellBuilt(Op2(op, Var(X), Var(Y)));
    assert WellBuilt(Op1(ISZERO, Op2(op, Var(X), Var(Y))));
  }

  lemma NegationWellBuilt()
    ensures WellBuiltRules(NegationRules())
  {
    hide DoubleNegationRule, HasArity;
    Arities();
    DoubleNegationWellBuilt(EQ);
    DoubleNegationWellBuilt(LT);
    DoubleNegationWellBuilt(SLT);
    DoubleNegationWellBuilt(GT);
    DoubleNegationWellBuilt(SGT);
    assert WellBuilt(Op1(ISZERO, Op1(ISZERO, Var(X))));
    assert WellBuilt(Op2(XOR, Var(X), Var(Y)));
  }

  lemma SubWellBuilt()
    ensures WellBuiltRules(SubRules())
    ensures WellBuiltRules(AddSubRules(Op2(ADD, Var(X), Var(A)))) && WellBuiltRules(AddSubRules(Op2(ADD, Var(A), Var(X))))
  {
    hide HasArity;
    Arities();
  }

  lemma AssociativeWellBuilt(op: Opcode, xa: Pattern)
    requires HasArity(op, 2) && WellBuilt(xa)
    ensures WellBuiltRules(AssociativeRules(op, xa))
  {
    hide HasArity, Combine;
    SmallNested(op, X, Y, A);
    SmallNested(op, Y, X, A);
    assert WellBuilt(Var(B)) && WellBuilt(Var(Y));
    assert WellBuilt(Op2(op, Var(X), Var(Y))) && WellBuilt(Op2(op, Var(Y), Var(X)));
    assert WellBuilt(Op2(op, Op2(op, Var(X), Var(Y)), Var(A))) && WellBuilt(Op2(op, Op2(op, Var(Y), Var(X)), Var(A)));
    var rs := AssociativeRules(op, xa);
    assert WellBuiltAction(rs[0].action) && WellBuiltAction(rs[1].action) && WellBuiltAction(rs[2].action) && WellBuiltAction(rs[3].action);
  }

  lemma AllAssociativeWellBuilt(op: Opcode)
    requires HasArity(op, 2)
    ensures WellBuiltRules(AllAssociativeRules(op))
  {
    hide AssociativeRules, HasArity, WellBuiltAction;
    AssociativeWellBuilt(op, Op2(op, Var(X), Var(A)));
    AssociativeWellBuilt(op, Op2(op, Var(A), Var(X)));
  }

  lemma AddressWellBuilt(op: Opcode)
    requires HasArity(op, 0)
    ensures WellBuiltRules(AddressRules(op))
  {
    hide HasArity;
    Arities();
    assert WellBuilt(Op0(op));
    assert WellBuiltAction(Is(Op0(op)));
    var mask: Word := ADDRESS_BASE - 1;
    assert WellBuilt(Literal(mask)) && HasArity(AND, 2);
    assert WellBuilt(Op2(AND, Op0(op), Literal(mask)));
    assert WellBuilt(Op2(AND, Literal(mask), Op0(op)));
  }

  lemma ModWellBuilt()
    ensures WellBuiltRules(ModRules())
  {
    hide HasArity, WellBuilt, WellBuiltAction, ModRule;
    forall i | 0 <= i < |ModRules()|
      ensures WellBuilt(ModRules()[i].pattern) && WellBuiltAction(ModRules()[i].action)
    {
      ModRuleWellBuilt(i);
    }
  }

  lemma ModRuleWellBuilt(i: nat)
    requires i < WORD_BITS
    ensures WellBuilt(ModRule(i).pattern) && WellBuiltAction(ModRule(i).action)
  {
    hide HasArity;
    Arities();
    Pow2Bits();
    Pow2Monotone(i, WORD_BITS);
    MaskedWellBuilt(MOD, Pow2(i));
    MaskedWellBuilt(AND, Pow2(i) - 1);
  }

  lemma MaskedWellBuilt(op: Opcode, w: Word)
    requires HasArity(op, 2)
    ensures WellBuilt(Op2(op, Var(X), Literal(w))) && AtMostTwo(Op2(op, Var(X), Literal(w)))
  {
    hide HasArity;
    assert WellBuilt(Var(X)) && WellBuilt(Pattern.Literal(w));
  }

  lemma AllAssociativeSound(env: Env, outside: int, op: Opcode, v: Vals)
    requires IsAssociative(op)
    ensures SoundAt(env, outside, AllAssociativeRules(op), v)
  {
    hide SoundAt, AssociativeRules;
    var xa, ax := Op2(op, Var(X), Var(A)), Op2(op, Var(A), Var(X));
    AssociativeRulesSound(env, outside, op, xa, v);
    AssociativeRulesSound(env, outside, op, ax, v);
    SoundAtConcat(env, outside, AssociativeRules(op, xa), AssociativeRules(op, ax), v);
  }

  lemma ModRulesSound(env: Env, outside: int, v: Vals)
    ensures SoundAt(env, outside, ModRules(), v)
  {
    hide SoundFor, ModRule;
    forall i | 0 <= i < |ModRules()|
      ensures SoundFor(env, outside, ModRules()[i], v)
    {
      ModRuleSound(env, outside, i, v);
    }
  }

  /** All rules except the shadowed one. */
  lemma RulesSound(env: Env, outside: int, v: Vals)
    requires AddressesFit(env)
    ensures SoundAt(env, outside, ConstantRules(), v) && WellBuiltRules(ConstantRules())
    ensures SoundAt(env, outside, RulesAfterShadowed(), v) && WellBuiltRules(RulesAfterShadowed())
  {
    hide SoundAt, WellBuiltRules, HasArity, ConstantRules, ShiftRules, KnownConstantRules, KnownBitRules, SelfRules, LogicalRules, ModRules,
      AddressRules, NegationRules, AllAssociativeRules, AddSubRules, SubRules, AddressesFit;
    var xa, ax := Op2(ADD, Var(X), Var(A)), Op2(ADD, Var(A), Var(X));
    Arities();
    ConstantListsWellBuilt();
    KnownListsWellBuilt();
    LogicalWellBuilt();
    ModWellBuilt();
    NegationWellBuilt();
    SubWellBuilt();
    ConstantRulesSound(env, outside, v);
    FixedRulesSound(env, outside, v);
    ModRulesSound(env, outside, v);
    NegationRulesSound(env, outside, v);
    SubRulesSound(env, outside, v);
    var r := ShiftRules();
    r := Joined(env, outside, r, KnownConstantRules(), v);
    r := Joined(env, outside, r, KnownBitRules(), v);
    r := Joined(env, outside, r, SelfRules(), v);
    r := Joined(env, outside, r, LogicalRules(), v);
    r := Joined(env, outside, r, ModRules(), v);
    AddressRulesSound(env, outside, ADDRESS, v);
    AddressWellBuilt(ADDRESS);
    r := Joined(env, outside, r, AddressRules(ADDRESS), v);
    AddressRulesSound(env, outside, CALLER, v);
    AddressWellBuilt(CALLER);
    r := Joined(env, outside, r, AddressRules(CALLER), v);
    AddressRulesSound(env, outside, ORIGIN, v);
    AddressWellBuilt(ORIGIN);
    r := Joined(env, outside, r, AddressRules(ORIGIN), v);
    AddressRulesSound(env, outside, COINBASE, v);
    AddressWellBuilt(COINBASE);
    r := Joined(env, outside, r, AddressRules(COINBASE), v);
    r := Joined(env, outside, r, NegationRules(), v);
    AllAssociativeSound(env, outside, ADD, v);
    AllAssociativeWellBuilt(ADD);
    r := Joined(env, outside, r, AllAssociativeRules(ADD), v);
    AllAssociativeSound(env, outside, MUL, v);
    AllAssociativeWellBuilt(MUL);
    r := Joined(env, outside, r, AllAssociativeRules(MUL), v);
    AllAssociativeSound(env, outside, AND, v);
    AllAssociativeWellBuilt(AND);
    r := Joined(env, outside, r, AllAssociativeRules(AND), v);
    AllAssociativeSound(env, outside, OR, v);
    AllAssociativeWellBuilt(OR);
    r := Joined(env, outside, r, AllAssociativeRules(OR), v);
    AllAssociativeSound(env, outside, XOR, v);
    AllAssociativeWellBuilt(XOR);
    r := Joined(env, outside, r, AllAssociativeRules(XOR), v);
    AddSubRulesSound(env, outside, xa, v);
    r := Joined(env, outside, r, AddSubRules(xa), v);
    AddSubRulesSound(env, outside, ax, v);
    r := Joined(env, outside, r, AddSubRules(ax), v);
    r := Joined(env, outside, r, SubRules(), v);
  }

  lemma Joined(env: Env, outside: int, p: seq<Rule>, q: seq<Rule>, v: Vals) returns (r: seq<Rule>)
    requires SoundAt(env, outside, p, v) && SoundAt(env, outside, q, v) && WellBuiltRules(p) && WellBuiltRules(q)
    ensures r == p + q && SoundAt(env, outside, r, v) && WellBuiltRules(r)
  {
    hide SoundAt, WellBuilt, WellBuiltAction;
    r := p + q;
    SoundAtConcat(env, outside, p, q, v);
  }

  // ----- matching -----

  type Bindings = map<Group, Id>

  /** Arguments of a class have smaller numbers, so the table can be read from front to back. */
  predicate WellFormed(reps: seq<Expr>) {
    forall i | 0 <= i < |reps| :: ArgsBelow(reps[i], i)
  }

  predicate ArgsBelow(e: Expr, n: nat) {
    forall j | 0 <= j < |e.args| :: e.args[j] < n
  }

  function Bind(b: Bindings, g: Group, id: Id): Option<Bindings> {
    if g !in b then Some(b[g := id]) else if b[g] == id then Some(b) else None
  }

  /** Matches a pattern against the representative of a class, extending the bindings. */
  function MatchId(p: Pattern, id: Id, reps: seq<Expr>, b: Bindings): Option<Bindings>
    requires WellFormed(reps) && id < |reps|
    decreases p, 1
  {
    match p
    case Var(g) => if IsConstant(g) && !reps[id].item.Push? then None else Bind(b, g, id)
    case Literal(w) => if reps[id].item == Push(w) then Some(b) else None
    case _ => MatchExpr(p, reps[id], reps, b)
  }

  function MatchExpr(p: Pattern, e: Expr, reps: seq<Expr>, b: Bindings): Option<Bindings>
    requires WellFormed(reps) && ArgsBelow(e, |reps|)
    decreases p, 0
  {
    match p
    case Op0(op) => if e.item == Operation(op) && e.args == [] then Some(b) else None
    case Op1(op, q) =>
      if e.item == Operation(op) && |e.args| == 1 then MatchId(q, e.args[0], reps, b) else None
    case Op2(op, q, r) =>
      if e.item == Operation(op) && |e.args| == 2 then
        match MatchId(q, e.args[0], reps, b)
        case None => None
        case Some(b') => MatchId(r, e.args[1], reps, b')
      else None
    case Op3(op, q, r, s) =>
      if e.item == Operation(op) && |e.args| == 3 then
        match MatchId(q, e.args[0], reps, b)
        case None => None
        case Some(b') =>
          match MatchId(r, e.args[1], reps, b')
          case None => None
          case Some(b'') => MatchId(s, e.args[2], reps, b'')
      else None
    case _ => None
  }

  /** The first rule in the list that matches. */
  function FirstMatch(rules: seq<Rule>, e: Expr, reps: seq<Expr>): Option<(Rule, Bindings)>
    requires WellFormed(reps) && ArgsBelow(e, |reps|)
  {
    if rules == [] then None
    else
      match MatchExpr(rules[0].pattern, e, reps, map[])
      case Some(b) => Some((rules[0], b))
      case None => FirstMatch(rules[1..], e, reps)
  }

  // ----- matched expressions have the value of their pattern -----

  function ArgValues(nu: seq<Word>, args: seq<Id>): seq<Word>
    requires forall j | 0 <= j < |args| :: args[j] < |nu|
  {
    seq(|args|, j requires 0 <= j < |args| => nu[args[j]])
  }

  /** `nu` gives every class a value that agrees with its representative. */
  ghost predicate Denotes(env: Env, outside: int, reps: seq<Expr>, nu: seq<Word>) {
    && |nu| == |reps|
    && WellFormed(reps)
    && forall id | 0 <= id < |reps| :: DenotesAt(env, outside, reps[id], nu[..id], nu[id])
  }

  ghost predicate DenotesAt(env: Env, outside: int, e: Expr, before: seq<Word>, value: Word)
    requires ArgsBelow(e, |before|)
  {
    && (e.item.Push? ==> value == e.item.data)
    && (e.item.Operation? && !IsMemoryOp(e.item.instr) ==>
          value == PureValue(env, outside, e.item.instr, ArgValues(before, e.args)))
  }

  function Bound(b: Bindings, g: Group, nu: seq<Word>): Word {
    if g in b && b[g] < |nu| then nu[b[g]] else 0
  }

  function Valuation(b: Bindings, nu: seq<Word>): Vals {
    Vals(Bound(b, A, nu), Bound(b, B, nu), Bound(b, C, nu), Bound(b, X, nu), Bound(b, Y, nu))
  }

  predicate Extends(big: Bindings, small: Bindings) {
    forall g | g in small :: g in big && big[g] == small[g]
  }

  predicate BindingsIn(b: Bindings, n: nat) {
    forall g | g in b :: b[g] < n
  }

  lemma {:induction false} MatchIdValue(env: Env, outside: int, p: Pattern, id: Id, reps: seq<Expr>, b: Bindings, big: Bindings, nu: seq<Word>)
    requires Denotes(env, outside, reps, nu) && id < |reps| && WellBuilt(p)
    requires MatchId(p, id, reps, b).Some? && Extends(big, MatchId(p, id, reps, b).value)
    requires BindingsIn(big, |reps|)
    ensures Extends(big, b)
    ensures nu[id] == Value(env, outside, p, Valuation(big, nu))
    decreases p, 1
  {
    hide PureValue;
    match p
    case Var(g) =>
      assert big[g] == id;
    case Literal(w) =>
      assert DenotesAt(env, outside, reps[id], nu[..id], nu[id]);
    case _ =>
      assert DenotesAt(env, outside, reps[id], nu[..id], nu[id]);
      MatchExprValue(env, outside, p, reps[id], reps, b, big, nu);
      assert ArgValues(nu[..id], reps[id].args) == ArgValues(nu, reps[id].args);
  }

  lemma {:induction false} MatchExprValue(env: Env, outside: int, p: Pattern, e: Expr, reps: seq<Expr>, b: Bindings, big: Bindings, nu: seq<Word>)
    requires Denotes(env, outside, reps, nu) && ArgsBelow(e, |reps|) && WellBuilt(p)
    requires MatchExpr(p, e, reps, b).Some? && Extends(big, MatchExpr(p, e, reps, b).value)
    requires BindingsIn(big, |reps|)
    ensures Extends(big, b)
    ensures e.item.Operation? && e.item == Operation(p.instr)
    ensures PureValue(env, outside, e.item.instr, ArgValues(nu, e.args)) == Value(env, outside, p, Valuation(big, nu))
    decreases p, 0
  {
    hide PureValue, DenotesAt;
    match p
    case Op0(op) =>
      assert ArgValues(nu, e.args) == [];
    case Op1(op, q) =>
      MatchIdValue(env, outside, q, e.args[0], reps, b, big, nu);
      assert ArgValues(nu, e.args) == [nu[e.args[0]]];
    case Op2(op, q, r) =>
      var b' := MatchId(q, e.args[0], reps, b).value;
      MatchIdValue(env, outside, r, e.args[1], reps, b', big, nu);
      MatchIdValue(env, outside, q, e.args[0], reps, b, big, nu);
      assert ArgValues(nu, e.args) == [nu[e.args[0]], nu[e.args[1]]];
    case Op3(op, q, r, s) =>
      var b' := MatchId(q, e.args[0], reps, b).value;
      var b'' := MatchId(r, e.args[1], reps, b').value;
      MatchIdValue(env, outside, s, e.args[2], reps, b'', big, nu);
      MatchIdValue(env, outside, r, e.args[1], reps, b', big, nu);
      MatchIdValue(env, outside, q, e.args[0], reps, b, big, nu);
      assert ArgValues(nu, e.args) == [nu[e.args[0]], nu[e.args[1]], nu[e.args[2]]];
  }

  /** The data of the matched constants, as read from the table. */
  function ConstantData(b: Bindings, g: Group, reps: seq<Expr>): Word {
    if g in b && b[g] < |reps| && reps[b[g]].item.Push? then reps[b[g]].item.data else 0
  }

  function ConstantVals(b: Bindings, reps: seq<Expr>): Vals {
    Vals(ConstantData(b, A, reps), ConstantData(b, B, reps), ConstantData(b, C, reps), 0, 0)
  }

  ghost predicate ConstantsBound(b: Bindings, reps: seq<Expr>) {
    && BindingsIn(b, |reps|)
    && forall g | g in b && IsConstant(g) :: reps[b[g]].item.Push?
  }

  lemma {:induction false} MatchIdBinds(p: Pattern, id: Id, reps: seq<Expr>, b: Bindings)
    requires WellFormed(reps) && id < |reps| && ConstantsBound(b, reps)
    requires MatchId(p, id, reps, b).Some?
    ensures ConstantsBound(MatchId(p, id, reps, b).value, reps)
    decreases p, 1
  {
    match p
    case Var(_) =>
    case Literal(_) =>
    case _ => MatchExprBinds(p, reps[id], reps, b);
  }

  lemma {:induction false} MatchExprBinds(p: Pattern, e: Expr, reps: seq<Expr>, b: Bindings)
    requires WellFormed(reps) && ArgsBelow(e, |reps|) && ConstantsBound(b, reps)
    requires MatchExpr(p, e, reps, b).Some?
    ensures ConstantsBound(MatchExpr(p, e, reps, b).value, reps)
    decreases p, 0
  {
    hide ConstantsBound;
    match p
    case Op0(op) =>
    case Op1(op, q) => MatchIdBinds(q, e.args[0], reps, b);
    case Op2(op, q, r) =>
      MatchIdBinds(q, e.args[0], reps, b);
      MatchIdBinds(r, e.args[1], reps, MatchId(q, e.args[0], reps, b).value);
    case Op3(op, q, r, s) =>
      MatchIdBinds(q, e.args[0], reps, b);
      var b' := MatchId(q, e.args[0], reps, b).value;
      MatchIdBinds(r, e.args[1], reps, b');
      MatchIdBinds(s, e.args[2], reps, MatchId(r, e.args[1], reps, b').value);
  }

  /** The constants read from the table are the values of their classes. */
  lemma ConstantsAgree(env: Env, outside: int, action: Action, b: Bindings, reps: seq<Expr>, nu: seq<Word>)
    requires Denotes(env, outside, reps, nu) && ConstantsBound(b, reps)
    ensures Result(action, ConstantVals(b, reps)) == Result(action, Valuation(b, nu))
  {
    hide Result, PureValue;
    var c, v := ConstantVals(b, reps), Valuation(b, nu);
    forall g | g in b && IsConstant(g)
      ensures ConstantData(b, g, reps) == Bound(b, g, nu)
    {
      assert DenotesAt(env, outside, reps[b[g]], nu[..b[g]], nu[b[g]]);
    }
    ResultOfConstants(action, c, v);
  }

  lemma ResultOfConstants(action: Action, v: Vals, v': Vals)
    requires v.a == v'.a && v.b == v'.b && v.c == v'.c
    ensures Result(action, v) == Result(action, v')
  {
    hide FoldedValue, Mul, Add, Sub, Combine;
  }

  lemma {:induction false} FirstMatchIndex(rules: seq<Rule>, e: Expr, reps: seq<Expr>) returns (i: nat)
    requires WellFormed(reps) && ArgsBelow(e, |reps|)
    requires FirstMatch(rules, e, reps).Some?
    ensures i < |rules|
    ensures var (r, b) := FirstMatch(rules, e, reps).value;
            r == rules[i] && MatchExpr(r.pattern, e, reps, map[]) == Some(b)
    ensures forall j | 0 <= j < i :: MatchExpr(rules[j].pattern, e, reps, map[]).None?
  {
    hide MatchExpr, WellFormed, ArgsBelow;
    if MatchExpr(rules[0].pattern, e, reps, map[]).Some? {
      i := 0;
    } else {
      i := FirstMatchIndex(rules[1..], e, reps);
      i := i + 1;
    }
  }

  /** The first matching rule yields an expression of the same value. The shadowed MULMOD rule,
      which is wrong, is never the first to match. */
  lemma FirstMatchSound(env: Env, outside: int, e: Expr, reps: seq<Expr>, nu: seq<Word>)
    requires AddressesFit(env) && Denotes(env, outside, reps, nu)
    requires ArgsBelow(e, |reps|) && FirstMatch(RuleList(), e, reps).Some?
    ensures var (r, b) := FirstMatch(RuleList(), e, reps).value;
            && ConstantsBound(b, reps)
            && e.item.Operation?
            && PureValue(env, outside, e.item.instr, ArgValues(nu, e.args)) ==
               Value(env, outside, Result(r.action, ConstantVals(b, reps)), Valuation(b, nu))
  {
    hide PureValue, MatchExpr, ConstantRules, RulesAfterShadowed, Denotes, ConstantsBound, AddressesFit, WellBuilt, Valuation, ConstantVals, Result;
    DenotesWellFormed(env, outside, reps, nu);
    var (r, b) := FirstMatch(RuleList(), e, reps).value;
    var i := FirstMatchIndex(RuleList(), e, reps);
    var n := |ConstantRules()|;
    var v := Valuation(b, nu);
    RulesSound(env, outside, v);
    ShadowedPattern();
    var previous := RuleList()[n - 1];
    assert previous == ConstantRules()[n - 1];
    assert n - 1 < i ==> MatchExpr(previous.pattern, e, reps, map[]).None?;
    assert i != n;
    assert SoundFor(env, outside, r, v) && WellBuilt(r.pattern) by {
      if i < n {
        assert r == ConstantRules()[i];
      } else {
        assert r == RulesAfterShadowed()[i - n - 1];
      }
    }
    NothingBound(reps);
    MatchExprBinds(r.pattern, e, reps, map[]);
    BoundIn(b, reps);
    MatchExprValue(env, outside, r.pattern, e, reps, map[], b, nu);
    ConstantsAgree(env, outside, r.action, b, reps, nu);
  }

  /** What holds of the first match whatever the classes stand for. */
  lemma FirstMatchShape(e: Expr, reps: seq<Expr>)
    requires WellFormed(reps) && ArgsBelow(e, |reps|) && FirstMatch(RuleList(), e, reps).Some?
    ensures var (r, b) := FirstMatch(RuleList(), e, reps).value;
            && ConstantsBound(b, reps)
            && WellBuiltAction(r.action)
            && e.item.Operation? && !IsMemoryOp(e.item.instr)
  {
    hide MatchExpr, ConstantRules, RulesAfterShadowed, ConstantsBound, WellBuilt, WellBuiltAction, WellFormed;
    var (r, b) := FirstMatch(RuleList(), e, reps).value;
    var i := FirstMatchIndex(RuleList(), e, reps);
    var n := |ConstantRules()|;
    var zero: (Opcode, seq<Word>, int) -> Word := (op, args, outside) => 0;
    var env := Env(zero, (op, args, w) => (0, w), item => 0, t => 0, t => false);
    RulesSound(env, 0, Vals(0, 0, 0, 0, 0));
    assert WellBuilt(r.pattern) && WellBuiltAction(r.action) by {
      if i < n {
        assert r == ConstantRules()[i];
      } else if i == n {
        ShadowedPattern();
        assert WellBuilt(ConstantRules()[n - 1].pattern);
        FoldedProductWellBuilt();
      } else {
        assert r == RulesAfterShadowed()[i - n - 1];
      }
    }
    NothingBound(reps);
    MatchExprBinds(r.pattern, e, reps, map[]);
    MatchExprItem(r.pattern, e, reps, map[]);
  }

  lemma FoldedProductWellBuilt()
    ensures WellBuiltAction(ShadowedRule().action)
  {
  }

  lemma MatchExprItem(p: Pattern, e: Expr, reps: seq<Expr>, b: Bindings)
    requires WellFormed(reps) && ArgsBelow(e, |reps|) && WellBuilt(p) && MatchExpr(p, e, reps, b).Some?
    ensures e.item.Operation? && !IsMemoryOp(e.item.instr)
  {
  }

  lemma ShadowedPattern()
    ensures |ConstantRules()| > 0
    ensures ConstantRules()[|ConstantRules()| - 1].pattern == ShadowedRule().pattern
  {
  }

  lemma NothingBound(reps: seq<Expr>)
    ensures ConstantsBound(map[], reps)
  {
  }

  lemma BoundIn(b: Bindings, reps: seq<Expr>)
    requires ConstantsBound(b, reps)
    ensures BindingsIn(b, |reps|)
  {
  }

  lemma DenotesWellFormed(env: Env, outside: int, reps: seq<Expr>, nu: seq<Word>)
    requires Denotes(env, outside, reps, nu)
    ensures WellFormed(reps) && |nu| == |reps|
  {
  }

  /** On its own the shadowed rule is wrong: 2 * 3 modulo 4 is 2, not 6. */
  lemma ShadowedRuleIsWrong(env: Env)
    ensures !SoundFor(env, 0, ShadowedRule(), Vals(2, 3, 4, 0, 0))
  {
    hide PureValue;
    var v := Vals(2, 3, 4, 0, 0);
    Table3(env, 0, 2, 3, 4);
    ValueVars(env, 0, v);
    assert Value(env, 0, ShadowedRule().pattern, v) == MulMod(2, 3, 4) == 2;
    assert Mul(2, 3) == 6;
  }
}
