/** When rules apply (libevmasm/SimplificationRules.cpp): matching finds exactly the expressions that
    have the shape of a pattern, and operations on constants are always folded. */
module Matching {
  import opened Wrappers
  import opened Words
  import opened Instructions
  import opened Items
  import opened Rules

  // ----- shapes -----

  /** The class has the shape of the pattern, with the match groups bound as given. */
  predicate ShapeOfId(p: Pattern, id: Id, reps: seq<Expr>, b: Bindings)
    requires WellFormed(reps) && id < |reps|
    decreases p, 1
  {
    match p
    case Var(g) => g in b && b[g] == id && (IsConstant(g) ==> reps[id].item.Push?)
    case Literal(w) => reps[id].item == Push(w)
    case _ => ShapeOf(p, reps[id], reps, b)
  }

  predicate ShapeOf(p: Pattern, e: Expr, reps: seq<Expr>, b: Bindings)
    requires WellFormed(reps) && ArgsBelow(e, |reps|)
    decreases p, 0
  {
    match p
    case Op0(op) => e.item == Operation(op) && e.args == []
    case Op1(op, q) => e.item == Operation(op) && |e.args| == 1 && ShapeOfId(q, e.args[0], reps, b)
    case Op2(op, q, r) =>
      e.item == Operation(op) && |e.args| == 2 && ShapeOfId(q, e.args[0], reps, b) && ShapeOfId(r, e.args[1], reps, b)
    case Op3(op, q, r, s) =>
      && e.item == Operation(op) && |e.args| == 3 && ShapeOfId(q, e.args[0], reps, b)
      && ShapeOfId(r, e.args[1], reps, b) && ShapeOfId(s, e.args[2], reps, b)
    case _ => false
  }

  lemma {:induction false} ShapeExtends(p: Pattern, e: Expr, reps: seq<Expr>, b: Bindings, big: Bindings)
    requires WellFormed(reps) && ArgsBelow(e, |reps|) && ShapeOf(p, e, reps, b) && Extends(big, b)
    ensures ShapeOf(p, e, reps, big)
    decreases p, 0
  {
    match p
    case Op1(_, q) => ShapeExtendsId(q, e.args[0], reps, b, big);
    case Op2(_, q, r) => ShapeExtendsId(q, e.args[0], reps, b, big); ShapeExtendsId(r, e.args[1], reps, b, big);
    case Op3(_, q, r, s) =>
      ShapeExtendsId(q, e.args[0], reps, b, big);
      ShapeExtendsId(r, e.args[1], reps, b, big);
      ShapeExtendsId(s, e.args[2], reps, b, big);
    case _ =>
  }

  lemma {:induction false} ShapeExtendsId(p: Pattern, id: Id, reps: seq<Expr>, b: Bindings, big: Bindings)
    requires WellFormed(reps) && id < |reps| && ShapeOfId(p, id, reps, b) && Extends(big, b)
    ensures ShapeOfId(p, id, reps, big)
    decreases p, 1
  {
    match p
    case Var(_) =>
    case Literal(_) =>
    case _ => ShapeExtends(p, reps[id], reps, b, big);
  }

  /** The matcher finds the least bindings under which the expression has the shape of the pattern. */
  ghost predicate Least(p: Pattern, e: Expr, reps: seq<Expr>, b: Bindings, r: Option<Bindings>)
    requires WellFormed(reps) && ArgsBelow(e, |reps|)
  {
    && (r.Some? ==> Extends(r.value, b) && ShapeOf(p, e, reps, r.value))
    && forall c | Extends(c, b) && ShapeOf(p, e, reps, c) :: r.Some? && Extends(c, r.value)
  }

  ghost predicate LeastId(p: Pattern, id: Id, reps: seq<Expr>, b: Bindings, r: Option<Bindings>)
    requires WellFormed(reps) && id < |reps|
  {
    && (r.Some? ==> Extends(r.value, b) && ShapeOfId(p, id, reps, r.value))
    && forall c | Extends(c, b) && ShapeOfId(p, id, reps, c) :: r.Some? && Extends(c, r.value)
  }

  lemma {:induction false} MatchIdLeast(p: Pattern, id: Id, reps: seq<Expr>, b: Bindings)
    requires WellFormed(reps) && id < |reps|
    ensures LeastId(p, id, reps, b, MatchId(p, id, reps, b))
    decreases p, 1
  {
    match p
    case Var(_) =>
    case Literal(_) =>
    case _ => MatchLeast(p, reps[id], reps, b);
  }

  lemma {:induction false} MatchLeast(p: Pattern, e: Expr, reps: seq<Expr>, b: Bindings)
    requires WellFormed(reps) && ArgsBelow(e, |reps|)
    ensures Least(p, e, reps, b, MatchExpr(p, e, reps, b))
    decreases p, 0
  {
    hide WellFormed;
    match p
    case Op1(op, q) =>
      if e.item == Operation(op) && |e.args| == 1 {
        MatchIdLeast(q, e.args[0], reps, b);
      }
    case Op2(op, q, r) =>
      if e.item == Operation(op) && |e.args| == 2 {
        MatchIdLeast(q, e.args[0], reps, b);
        var first := MatchId(q, e.args[0], reps, b);
        if first.Some? {
          MatchIdLeast(r, e.args[1], reps, first.value);
          var second := MatchId(r, e.args[1], reps, first.value);
          if second.Some? {
            ShapeExtendsId(q, e.args[0], reps, first.value, second.value);
          }
        }
      }
    case Op3(op, q, r, s) =>
      if e.item == Operation(op) && |e.args| == 3 {
        MatchIdLeast(q, e.args[0], reps, b);
        var first := MatchId(q, e.args[0], reps, b);
        if first.Some? {
          MatchIdLeast(r, e.args[1], reps, first.value);
          var second := MatchId(r, e.args[1], reps, first.value);
          if second.Some? {
            ShapeExtendsId(q, e.args[0], reps, first.value, second.value);
            MatchIdLeast(s, e.args[2], reps, second.value);
            var third := MatchId(s, e.args[2], reps, second.value);
            if third.Some? {
              ShapeExtendsId(q, e.args[0], reps, second.value, third.value);
              ShapeExtendsId(r, e.args[1], reps, second.value, third.value);
            }
          }
        }
      }
    case _ =>
  }

  ghost predicate HasShape(p: Pattern, e: Expr, reps: seq<Expr>)
    requires WellFormed(reps) && ArgsBelow(e, |reps|)
  {
    exists b: Bindings :: ShapeOf(p, e, reps, b)
  }

  /** A pattern matches exactly the expressions of its shape. */
  lemma MatchIff(p: Pattern, e: Expr, reps: seq<Expr>)
    requires WellFormed(reps) && ArgsBelow(e, |reps|)
    ensures MatchExpr(p, e, reps, map[]).Some? <==> HasShape(p, e, reps)
  {
    hide WellFormed, ShapeOf, MatchExpr;
    MatchLeast(p, e, reps, map[]);
    if b: Bindings :| ShapeOf(p, e, reps, b) {
      assert Extends(b, map[]);
    }
  }

  /** The rule found is the first one in the list whose pattern has the shape of the expression. */
  ghost predicate IsFirst(rules: seq<Rule>, e: Expr, reps: seq<Expr>, i: nat)
    requires WellFormed(reps) && ArgsBelow(e, |reps|)
  {
    i < |rules| && HasShape(rules[i].pattern, e, reps) && forall j | 0 <= j < i :: !HasShape(rules[j].pattern, e, reps)
  }

  lemma {:induction false} FirstMatchIff(rules: seq<Rule>, e: Expr, reps: seq<Expr>)
    requires WellFormed(reps) && ArgsBelow(e, |reps|)
    ensures FirstMatch(rules, e, reps).Some? <==> exists i: nat :: IsFirst(rules, e, reps, i)
    ensures forall i: nat | IsFirst(rules, e, reps, i) :: FirstMatch(rules, e, reps).value.0 == rules[i]
    ensures FirstMatch(rules, e, reps).None? <==> forall i | 0 <= i < |rules| :: !HasShape(rules[i].pattern, e, reps)
  {
    hide WellFormed, HasShape, MatchExpr;
    if rules != [] {
      MatchIff(rules[0].pattern, e, reps);
      FirstMatchIff(rules[1..], e, reps);
      if HasShape(rules[0].pattern, e, reps) {
        assert IsFirst(rules, e, reps, 0);
      } else {
        forall i: nat | IsFirst(rules[1..], e, reps, i)
          ensures IsFirst(rules, e, reps, i + 1)
        {
        }
        forall i: nat | IsFirst(rules, e, reps, i)
          ensures i > 0 && IsFirst(rules[1..], e, reps, i - 1)
        {
        }
      }
    }
  }

  // ----- operations on constants -----

  /** The operations that are computed when all arguments are constants. */
  predicate Foldable(op: Opcode) {
    || op == ADD || op == MUL || op == SUB || op == DIV || op == SDIV || op == MOD || op == SMOD || op == EXP
    || op == NOT || op == LT || op == GT || op == SLT || op == SGT || op == EQ || op == ISZERO
    || op == AND || op == OR || op == XOR || op == BYTE || op == ADDMOD || op == MULMOD
    || op == SIGNEXTEND || op == SHL || op == SHR
  }

  predicate AllConstant(e: Expr, reps: seq<Expr>)
    requires ArgsBelow(e, |reps|)
  {
    forall j | 0 <= j < |e.args| :: reps[e.args[j]].item.Push?
  }

  predicate HasInstruction(p: Pattern) {
    !p.Var? && !p.Literal?
  }

  function ArgumentPattern(op: Opcode): Pattern {
    if ArgCount(op) == 1 then Op1(op, Var(A))
    else if ArgCount(op) == 2 then Op2(op, Var(A), Var(B))
    else Op3(op, Var(A), Var(B), Var(C))
  }

  /** The rule at this place folds its operation; the shadowed rule is no such rule. */
  predicate FoldsAt(i: nat)
    requires i < |RuleList()|
  {
    var r := RuleList()[i];
    HasInstruction(r.pattern) && r == Rule(ArgumentPattern(r.pattern.instr), Folded(r.pattern.instr))
  }

  lemma FoldingStart()
    ensures |RuleList()| >= 25 && forall i | 0 <= i < 21 :: RuleList()[i] == ConstantRules()[i]
    ensures |ConstantRules()| == 21 && |ShiftRules()| == 3
    ensures RuleList()[21] == ShadowedRule() && forall i | 0 <= i < 3 :: RuleList()[22 + i] == ShiftRules()[i]
  {
    hide KnownConstantRules, KnownBitRules, SelfRules, LogicalRules, ModRules, AddressRules, NegationRules, AllAssociativeRules, AddSubRules, SubRules;
  }

  function PlaceOf(op: Opcode): nat {
    if op == ADD then 0 else if op == MUL then 1 else if op == SUB then 2 else if op == DIV then 3
    else if op == SDIV then 4 else if op == MOD then 5 else if op == SMOD then 6 else if op == EXP then 7
    else if op == NOT then 8 else if op == LT then 9 else if op == GT then 10 else if op == SLT then 11
    else if op == SGT then 12 else if op == EQ then 13 else if op == ISZERO then 14 else if op == AND then 15
    else if op == OR then 16 else if op == XOR then 17 else if op == BYTE then 18 else if op == ADDMOD then 19
    else if op == MULMOD then 20 else if op == SIGNEXTEND then 22 else if op == SHL then 23 else 24
  }

  lemma FoldingPlaces()
    ensures |RuleList()| >= 25 && RuleList()[21] == ShadowedRule()
    ensures forall i | 0 <= i < 25 && i != 21 :: FoldsAt(i)
  {
    hide RuleList;
    FoldingStart();
    forall i | 0 <= i < 25 && i != 21
      ensures FoldsAt(i)
    {
      if i >= 22 {
        assert RuleList()[22 + (i - 22)] == ShiftRules()[i - 22];
      }
    }
  }

  lemma FoldingPlace(op: Opcode)
    requires Foldable(op)
    ensures |RuleList()| >= 25 && PlaceOf(op) < 25 && PlaceOf(op) != 21 && (op == MULMOD ==> PlaceOf(op) < 21)
    ensures HasInstruction(RuleList()[PlaceOf(op)].pattern) && RuleList()[PlaceOf(op)].pattern.instr == op
  {
    hide RuleList;
    FoldingStart();
    if PlaceOf(op) >= 22 {
      assert RuleList()[22 + (PlaceOf(op) - 22)] == ShiftRules()[PlaceOf(op) - 22];
    }
  }

  function DataOf(e: Expr, reps: seq<Expr>, j: nat): Word {
    if j < |e.args| && e.args[j] < |reps| && reps[e.args[j]].item.Push? then reps[e.args[j]].item.data else 0
  }

  /** Operations on constants are replaced by the constant that they give. */
  lemma ConstantsFold(e: Expr, reps: seq<Expr>)
    requires WellFormed(reps) && ArgsBelow(e, |reps|) && e.item.Operation? && Foldable(e.item.instr)
    requires |e.args| == ArgCount(e.item.instr) && AllConstant(e, reps)
    ensures var m := FirstMatch(RuleList(), e, reps);
            && m.Some?
            && Rules.Result(m.value.0.action, ConstantVals(m.value.1, reps)) ==
               Literal(FoldedValue(e.item.instr, DataOf(e, reps, 0), DataOf(e, reps, 1), DataOf(e, reps, 2)))
  {
    hide RuleList, WellFormed, MatchExpr, FoldedValue, Foldable, PlaceOf, HasShape;
    var op, n := e.item.instr, PlaceOf(e.item.instr);
    FoldingPlaces();
    FoldingPlace(op);
    assert FoldsAt(n);
    ConstantsHaveShape(op, e, reps);
    FirstMatchIff(RuleList(), e, reps);
    var i := FirstMatchIndex(RuleList(), e, reps);
    forall j | 0 <= j < |RuleList()|
      ensures MatchExpr(RuleList()[j].pattern, e, reps, map[]).Some? <==> HasShape(RuleList()[j].pattern, e, reps)
    {
      MatchIff(RuleList()[j].pattern, e, reps);
    }
    assert i <= n;
    MatchLeast(RuleList()[i].pattern, e, reps, map[]);
    assert i != 21 ==> FoldsAt(i);
    FoldedConstants(op, e, reps, FirstMatch(RuleList(), e, reps).value.1);
  }

  lemma ConstantsHaveShape(op: Opcode, e: Expr, reps: seq<Expr>)
    requires WellFormed(reps) && ArgsBelow(e, |reps|) && e.item == Operation(op) && Foldable(op)
    requires |e.args| == ArgCount(op) && AllConstant(e, reps)
    ensures HasShape(ArgumentPattern(op), e, reps)
  {
    hide WellFormed;
    var b: Bindings := map[A := e.args[0]];
    if |e.args| > 1 {
      b := b[B := e.args[1]];
    }
    if |e.args| > 2 {
      b := b[C := e.args[2]];
    }
    assert ShapeOf(ArgumentPattern(op), e, reps, b);
  }

  lemma FoldedConstants(op: Opcode, e: Expr, reps: seq<Expr>, b: Bindings)
    requires WellFormed(reps) && ArgsBelow(e, |reps|) && Foldable(op) && |e.args| == ArgCount(op)
    requires ShapeOf(ArgumentPattern(op), e, reps, b)
    ensures FoldedValue(op, ConstantVals(b, reps).a, ConstantVals(b, reps).b, ConstantVals(b, reps).c) ==
            FoldedValue(op, DataOf(e, reps, 0), DataOf(e, reps, 1), DataOf(e, reps, 2))
  {
    hide WellFormed, Add, Mul, Sub, Div, SDiv, Mod, SMod, Exp, Not, And, Or, Xor, ByteByMask, AddMod, MulMod, SignExtendByMask, Shl, Shr, ToSigned;
  }
}
