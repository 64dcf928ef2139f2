/** Rule application comes to an end (libevmasm/RuleList.h): no rule makes an expression larger, and
    those that keep its size lead to a form that no such rule applies to again. */
module RuleSizes {
  import opened Wrappers
  import opened Words
  import opened Instructions
  import opened Items
  import opened Rules

  // ----- sizes -----

  /** The size of the expression tree of a class. */
  function Size(reps: seq<Expr>, id: Id): (n: nat)
    requires WellFormed(reps) && id < |reps|
    ensures n >= 1
    decreases id, 1, 0
  {
    1 + ArgsSize(reps, reps[id].args, id)
  }

  function ArgsSize(reps: seq<Expr>, args: seq<Id>, n: nat): nat
    requires WellFormed(reps) && n <= |reps| && forall j | 0 <= j < |args| :: args[j] < n
    decreases n, 0, |args|
  {
    if args == [] then 0 else Size(reps, args[0]) + ArgsSize(reps, args[1..], n)
  }

  function ExprSize(reps: seq<Expr>, e: Expr): nat
    requires WellFormed(reps) && ArgsBelow(e, |reps|)
  {
    1 + ArgsSize(reps, e.args, |reps|)
  }

  lemma {:induction false} ArgsSizeAny(reps: seq<Expr>, args: seq<Id>, m: nat, n: nat)
    requires WellFormed(reps) && m <= |reps| && n <= |reps|
    requires forall j | 0 <= j < |args| :: args[j] < m && args[j] < n
    ensures ArgsSize(reps, args, m) == ArgsSize(reps, args, n)
  {
    if args != [] {
      ArgsSizeAny(reps, args[1..], m, n);
    }
  }

  lemma SizeIsExprSize(reps: seq<Expr>, id: Id)
    requires WellFormed(reps) && id < |reps|
    ensures ArgsBelow(reps[id], |reps|) && Size(reps, id) == ExprSize(reps, reps[id])
  {
    ArgsSizeAny(reps, reps[id].args, id, |reps|);
  }

  /** Sizes do not change when the table grows. */
  lemma {:induction false} SizeGrows(reps: seq<Expr>, bigger: seq<Expr>, id: Id)
    requires WellFormed(reps) && WellFormed(bigger) && reps <= bigger && id < |reps|
    ensures Size(bigger, id) == Size(reps, id)
    decreases id, 1, 0
  {
    ArgsSizeGrows(reps, bigger, reps[id].args, id);
  }

  lemma {:induction false} ArgsSizeGrows(reps: seq<Expr>, bigger: seq<Expr>, args: seq<Id>, n: nat)
    requires WellFormed(reps) && WellFormed(bigger) && reps <= bigger && n <= |reps| && forall j | 0 <= j < |args| :: args[j] < n
    ensures ArgsSize(bigger, args, n) == ArgsSize(reps, args, n)
    decreases n, 0, |args|
  {
    if args != [] {
      SizeGrows(reps, bigger, args[0]);
      ArgsSizeGrows(reps, bigger, args[1..], n);
    }
  }

  lemma ExprSizeGrows(reps: seq<Expr>, bigger: seq<Expr>, e: Expr)
    requires WellFormed(reps) && WellFormed(bigger) && reps <= bigger && ArgsBelow(e, |reps|)
    ensures ArgsBelow(e, |bigger|) && ExprSize(bigger, e) == ExprSize(reps, e)
  {
    ArgsSizeGrows(reps, bigger, e.args, |reps|);
    ArgsSizeAny(bigger, e.args, |reps|, |bigger|);
  }

  /** Sizes of expressions with few arguments. */
  lemma FewArgs(reps: seq<Expr>, args: seq<Id>)
    requires WellFormed(reps) && forall j | 0 <= j < |args| :: args[j] < |reps|
    ensures |args| == 0 ==> ArgsSize(reps, args, |reps|) == 0
    ensures |args| == 1 ==> ArgsSize(reps, args, |reps|) == Size(reps, args[0])
    ensures |args| == 2 ==> ArgsSize(reps, args, |reps|) == Size(reps, args[0]) + Size(reps, args[1])
    ensures |args| == 3 ==> ArgsSize(reps, args, |reps|) == Size(reps, args[0]) + Size(reps, args[1]) + Size(reps, args[2])
  {
    hide Size, WellFormed;
    if |args| == 1 {
      assert args[1..] == [];
    } else if |args| == 2 {
      assert args[1..] == [args[1]] && args[1..][1..] == [];
    } else if |args| == 3 {
      assert args[1..] == [args[1], args[2]] && args[1..][1..] == [args[2]] && args[1..][1..][1..] == [];
    }
  }

  // ----- ranks: which expressions a rule can keep at their size -----

  /** Zero where no rule keeps the size, one where only the multiplication by minus one does. */
  function RankOf(op: Opcode, constantArg: bool): (r: nat)
    ensures r <= 2
  {
    if !constantArg then 2
    else if op == ADD || op == AND || op == OR || op == XOR || op == SUB then 0
    else if op == MUL then 1
    else 2
  }

  predicate HasConstant(reps: seq<Expr>, args: seq<Id>) {
    exists j :: 0 <= j < |args| && args[j] < |reps| && reps[args[j]].item.Push?
  }

  function Rank(reps: seq<Expr>, e: Expr): (r: nat)
    ensures r <= 2
  {
    if e.item.Operation? then RankOf(e.item.instr, HasConstant(reps, e.args)) else 2
  }

  /** What goes down with every nested application of a rule. */
  function Measure(reps: seq<Expr>, e: Expr): nat
    requires WellFormed(reps) && ArgsBelow(e, |reps|)
  {
    3 * ExprSize(reps, e) + Rank(reps, e)
  }

  // ----- sizes and ranks of patterns -----

  type Sizes = Group -> nat

  /** Constants have size one. */
  ghost predicate SizesOk(s: Sizes) {
    forall g :: s(g) >= 1 && (IsConstant(g) ==> s(g) == 1)
  }

  function PatSize(p: Pattern, s: Sizes): nat {
    match p
    case Var(g) => s(g)
    case Literal(_) => 1
    case Op0(_) => 1
    case Op1(_, q) => 1 + PatSize(q, s)
    case Op2(_, q, r) => 1 + PatSize(q, s) + PatSize(r, s)
    case Op3(_, q, r, t) => 1 + PatSize(q, s) + PatSize(r, s) + PatSize(t, s)
  }

  predicate ConstantPattern(p: Pattern) {
    p.Literal? || (p.Var? && IsConstant(p.group))
  }

  function PatRank(p: Pattern): (r: nat)
    ensures r <= 2
  {
    if p.Op2? then RankOf(p.instr, ConstantPattern(p.left) || ConstantPattern(p.right)) else 2
  }

  function VarsOf(p: Pattern): set<Group> {
    match p
    case Var(g) => {g}
    case Op1(_, q) => VarsOf(q)
    case Op2(_, q, r) => VarsOf(q) + VarsOf(r)
    case Op3(_, q, r, t) => VarsOf(q) + VarsOf(r) + VarsOf(t)
    case _ => {}
  }

  // ----- rules that move constants outwards -----

  /** The pattern of the rule that is tried before such a rule and catches constants. */
  function Guard(p: Pattern): Option<Pattern> {
    if !p.Op2? then None
    else if p.left.Op2? && p.right == Var(Y) && VarsOf(p.left) == {X, A} then Some(Op2(p.instr, p.left, Var(B)))
    else if p.right.Op2? && p.left == Var(Y) && VarsOf(p.right) == {X, A} then Some(Op2(p.instr, Var(B), p.right))
    else if p.left == Var(X) && p.right == Op2(ADD, Var(Y), Var(A)) then Some(Op2(p.instr, Var(B), Op2(ADD, Var(X), Var(A))))
    else if p.left == Var(X) && p.right == Op2(ADD, Var(A), Var(Y)) then Some(Op2(p.instr, Var(B), Op2(ADD, Var(A), Var(X))))
    else None
  }

  /** The rank of what the pattern matches is that of the pattern. */
  predicate FixedRank(p: Pattern) {
    p.Op2? && (p.instr == MOD || ConstantPattern(p.left) || ConstantPattern(p.right))
  }

  /** The rule makes expressions smaller, or leads to a lower rank at the same size. */
  predicate Shrinks(r: Rule, s: Sizes, v: Vals) {
    var q := Rules.Result(r.action, v);
    && VarsOf(q) <= VarsOf(r.pattern)
    && PatSize(q, s) <= PatSize(r.pattern, s)
    && (PatSize(q, s) == PatSize(r.pattern, s) ==>
          if Guard(r.pattern).Some? then q.Op2? && PatRank(q) <= 1 else FixedRank(r.pattern) && PatRank(q) < PatRank(r.pattern))
  }

  predicate AllShrink(rules: seq<Rule>, s: Sizes, v: Vals) {
    forall i | 0 <= i < |rules| :: Shrinks(rules[i], s, v)
  }

  lemma {:induction false} PatSizePositive(p: Pattern, s: Sizes)
    requires SizesOk(s)
    ensures PatSize(p, s) >= 1
    ensures p.Op1? || p.Op2? || p.Op3? ==> PatSize(p, s) >= 2
  {
    match p {
      case Op1(_, q) => PatSizePositive(q, s);
      case Op2(_, q, r) => PatSizePositive(q, s); PatSizePositive(r, s);
      case Op3(_, q, r, t) => PatSizePositive(q, s); PatSizePositive(r, s); PatSizePositive(t, s);
      case _ =>
    }
  }

  lemma ConstantListsShrink(s: Sizes, v: Vals)
    requires SizesOk(s)
    ensures AllShrink(ConstantRules(), s, v) && AllShrink(ShiftRules(), s, v) && AllShrink([ShadowedRule()], s, v)
  {
    hide FoldedValue, Mul;
  }

  lemma KnownConstantShrink(s: Sizes, v: Vals)
    requires SizesOk(s)
    ensures AllShrink(KnownConstantRules(), s, v)
  {
    hide Shrinks;
    var rs := KnownConstantRules();
    forall i | 0 <= i < |rs|
      ensures Shrinks(rs[i], s, v)
    {
      ShallowShrinks(rs[i], s, v);
    }
  }

  /** One instruction over a variable and a literal. */
  lemma ShallowShrinks(r: Rule, s: Sizes, v: Vals)
    requires SizesOk(s) && r.pattern.Op2? && r.action.Is?
    requires (r.pattern.left == Var(X) && r.pattern.right.Literal?) || (r.pattern.right == Var(X) && r.pattern.left.Literal?)
    requires r.action.result == Var(X) || r.action.result.Literal? ||
             (r.pattern.instr == MUL && r.action.result == Op2(SUB, Literal(0), Var(X)))
    ensures Shrinks(r, s, v)
  {
  }

  lemma KnownBitShrink(s: Sizes, v: Vals)
    requires SizesOk(s)
    ensures AllShrink(KnownBitRules(), s, v)
  {
  }

  lemma SelfShrink(s: Sizes, v: Vals)
    requires SizesOk(s)
    ensures AllShrink(SelfRules(), s, v)
  {
  }

  lemma LogicalShrink(s: Sizes, v: Vals)
    requires SizesOk(s)
    ensures AllShrink(LogicalRules(), s, v)
  {
  }

  lemma ModShrink(s: Sizes, v: Vals)
    requires SizesOk(s)
    ensures AllShrink(ModRules(), s, v)
  {
    hide Pow2, Shrinks;
    forall i | 0 <= i < WORD_BITS
      ensures Shrinks(ModRules()[i], s, v)
    {
      OneModShrinks(i, s, v);
    }
  }

  lemma OneModShrinks(i: nat, s: Sizes, v: Vals)
    requires SizesOk(s) && i < WORD_BITS
    ensures Shrinks(ModRule(i), s, v)
  {
    var r := ModRule(i);
    assert r.pattern.left == Var(X) && r.pattern.right.Literal? && r.pattern.instr == MOD;
    assert r.action == Is(Op2(AND, Var(X), r.action.result.right)) && r.action.result.right.Literal?;
  }

  lemma AddressShrink(op: Opcode, s: Sizes, v: Vals)
    requires SizesOk(s)
    ensures AllShrink(AddressRules(op), s, v)
  {
  }

  lemma NegationShrink(s: Sizes, v: Vals)
    requires SizesOk(s)
    ensures AllShrink(NegationRules(), s, v)
  {
  }

  /** Two instructions over variables and literals. */
  lemma Nested(op: Opcode, inner: Opcode, l: Pattern, r: Pattern, t: Pattern, s: Sizes)
    requires (l.Var? || l.Literal?) && (r.Var? || r.Literal?) && (t.Var? || t.Literal?)
    ensures PatSize(Op2(op, Op2(inner, l, r), t), s) == 2 + PatSize(l, s) + PatSize(r, s) + PatSize(t, s)
    ensures PatSize(Op2(op, t, Op2(inner, l, r)), s) == 2 + PatSize(l, s) + PatSize(r, s) + PatSize(t, s)
    ensures VarsOf(Op2(op, Op2(inner, l, r), t)) == VarsOf(l) + VarsOf(r) + VarsOf(t)
    ensures VarsOf(Op2(op, t, Op2(inner, l, r))) == VarsOf(l) + VarsOf(r) + VarsOf(t)
  {
    assert PatSize(Op2(inner, l, r), s) == 1 + PatSize(l, s) + PatSize(r, s);
    assert VarsOf(Op2(inner, l, r)) == VarsOf(l) + VarsOf(r);
  }

  /** Combining or moving constants. */
  lemma NestedShrinks(r: Rule, s: Sizes, v: Vals)
    requires SizesOk(s) && r.pattern.Op2?
    requires var p := r.pattern;
             || (p.left.Op2? && p.left.left.Var? && p.left.right.Var? && p.right.Var?)
             || (p.right.Op2? && p.right.left.Var? && p.right.right.Var? && p.left.Var?)
    requires var q := Rules.Result(r.action, v);
             && q.Op2? && VarsOf(q) <= VarsOf(r.pattern)
             && if q.left.Op2?
                then Guard(r.pattern).Some? && PatRank(q) <= 1 && PatSize(q, s) == PatSize(r.pattern, s)
                else PatSize(q, s) < PatSize(r.pattern, s)
    ensures Shrinks(r, s, v)
  {
  }

  lemma AssociativeShrink(op: Opcode, xa: Pattern, s: Sizes, v: Vals)
    requires SizesOk(s) && IsAssociative(op) && (xa == Op2(op, Var(X), Var(A)) || xa == Op2(op, Var(A), Var(X)))
    ensures AllShrink(AssociativeRules(op, xa), s, v)
  {
    hide Shrinks;
    CombineShrinks(op, xa, s, v);
    MoveShrinks(op, xa, s, v);
  }

  lemma CombineShrinks(op: Opcode, xa: Pattern, s: Sizes, v: Vals)
    requires SizesOk(s) && IsAssociative(op) && (xa == Op2(op, Var(X), Var(A)) || xa == Op2(op, Var(A), Var(X)))
    ensures Shrinks(AssociativeRules(op, xa)[0], s, v) && Shrinks(AssociativeRules(op, xa)[2], s, v)
  {
    hide Combine, Shrinks, IsAssociative, Guard, PatRank;
    Nested(op, op, xa.left, xa.right, Var(B), s);
    var rs := AssociativeRules(op, xa);
    NestedShrinks(rs[0], s, v);
    NestedShrinks(rs[2], s, v);
  }

  lemma MoveShrinks(op: Opcode, xa: Pattern, s: Sizes, v: Vals)
    requires SizesOk(s) && IsAssociative(op) && (xa == Op2(op, Var(X), Var(A)) || xa == Op2(op, Var(A), Var(X)))
    ensures Shrinks(AssociativeRules(op, xa)[1], s, v) && Shrinks(AssociativeRules(op, xa)[3], s, v)
  {
    hide Combine, Shrinks;
    Nested(op, op, xa.left, xa.right, Var(Y), s);
    Nested(op, op, Var(X), Var(Y), Var(A), s);
    Nested(op, op, Var(Y), Var(X), Var(A), s);
    var rs := AssociativeRules(op, xa);
    NestedShrinks(rs[1], s, v);
    NestedShrinks(rs[3], s, v);
  }

  lemma AddSubShrink(xa: Pattern, s: Sizes, v: Vals)
    requires SizesOk(s) && (xa == Op2(ADD, Var(X), Var(A)) || xa == Op2(ADD, Var(A), Var(X)))
    ensures AllShrink(AddSubRules(xa), s, v)
  {
    hide Sub, Shrinks;
    Nested(SUB, ADD, xa.left, xa.right, Var(B), s);
    var rs := AddSubRules(xa);
    NestedShrinks(rs[0], s, v);
    NestedShrinks(rs[1], s, v);
  }

  lemma SubShrink(s: Sizes, v: Vals)
    requires SizesOk(s)
    ensures AllShrink(SubRules(), s, v)
  {
    hide Sub, Add, Shrinks;
    var rs := SubRules();
    var a, b, x, y := Var(A), Var(B), Var(X), Var(Y);
    SubCombineShrink(s, v);
    Nested(SUB, ADD, x, a, y, s);
    Nested(SUB, ADD, a, x, y, s);
    Nested(SUB, ADD, y, a, x, s);
    Nested(SUB, ADD, a, y, x, s);
    Nested(ADD, SUB, x, y, a, s);
    Nested(SUB, SUB, x, y, a, s);
    NestedShrinks(rs[4], s, v);
    NestedShrinks(rs[5], s, v);
    NestedShrinks(rs[6], s, v);
    NestedShrinks(rs[7], s, v);
  }

  lemma SubCombineShrink(s: Sizes, v: Vals)
    requires SizesOk(s)
    ensures var rs := SubRules(); Shrinks(rs[0], s, v) && Shrinks(rs[1], s, v) && Shrinks(rs[2], s, v) && Shrinks(rs[3], s, v)
  {
    hide Shrinks;
    var a, b, x := Var(A), Var(B), Var(X);
    CombinedShrinks(Rule(Op2(ADD, Op2(SUB, x, a), b), Shifted(B, A)), x, a, s, v);
    CombinedShrinks(Rule(Op2(ADD, b, Op2(SUB, x, a)), Shifted(B, A)), x, a, s, v);
    CombinedShrinks(Rule(Op2(SUB, Op2(SUB, x, a), b), LessSum), x, a, s, v);
    CombinedShrinks(Rule(Op2(SUB, Op2(SUB, a, x), b), Difference(A, B)), a, x, s, v);
  }

  lemma CombinedShrinks(r: Rule, l: Pattern, t: Pattern, s: Sizes, v: Vals)
    requires SizesOk(s) && r.pattern.Op2? && (r.action.Shifted? || r.action.LessSum? || r.action.Difference?)
    requires (l == Var(X) && t == Var(A)) || (l == Var(A) && t == Var(X))
    requires (r.pattern.left == Op2(SUB, l, t) && r.pattern.right == Var(B)) || (r.pattern.right == Op2(SUB, l, t) && r.pattern.left == Var(B))
    ensures Shrinks(r, s, v)
  {
    hide Sub, Add, Shrinks, Guard, PatRank;
    Nested(r.pattern.instr, SUB, l, t, Var(B), s);
    NestedShrinks(r, s, v);
  }

  lemma ShrinkConcat(p: seq<Rule>, q: seq<Rule>, s: Sizes, v: Vals)
    requires AllShrink(p, s, v) && AllShrink(q, s, v)
    ensures AllShrink(p + q, s, v)
  {
    hide Shrinks;
  }

  lemma AllAssociativeShrink(op: Opcode, s: Sizes, v: Vals)
    requires SizesOk(s) && IsAssociative(op)
    ensures AllShrink(AllAssociativeRules(op), s, v)
  {
    hide AllShrink, AssociativeRules;
    var xa, ax := Op2(op, Var(X), Var(A)), Op2(op, Var(A), Var(X));
    AssociativeShrink(op, xa, s, v);
    AssociativeShrink(op, ax, s, v);
    ShrinkConcat(AssociativeRules(op, xa), AssociativeRules(op, ax), s, v);
  }

  // ----- guards come first -----

  predicate HasPattern(rules: seq<Rule>, p: Pattern) {
    exists j :: 0 <= j < |rules| && rules[j].pattern == p
  }

  /** Every rule that moves constants comes behind its guard. */
  predicate Guarded(seen: seq<Rule>, rules: seq<Rule>) {
    forall i | 0 <= i < |rules| :: GuardedAt(seen, rules, i)
  }

  predicate GuardedAt(seen: seq<Rule>, rules: seq<Rule>, i: nat)
    requires i < |rules|
  {
    Guard(rules[i].pattern).Some? ==> HasPattern(seen + rules[..i], Guard(rules[i].pattern).value)
  }

  predicate NoMoves(rules: seq<Rule>) {
    forall i | 0 <= i < |rules| :: Guard(rules[i].pattern).None?
  }

  lemma NoMovesGuarded(seen: seq<Rule>, rules: seq<Rule>)
    requires NoMoves(rules)
    ensures Guarded(seen, rules)
  {
    hide Guard;
  }

  lemma HasPatternMore(before: seq<Rule>, rules: seq<Rule>, after: seq<Rule>, p: Pattern)
    requires HasPattern(rules, p)
    ensures HasPattern(before + rules + after, p)
  {
    var j :| 0 <= j < |rules| && rules[j].pattern == p;
    assert (before + rules + after)[|before| + j] == rules[j];
  }

  lemma GuardedConcat(seen: seq<Rule>, p: seq<Rule>, q: seq<Rule>)
    requires Guarded(seen, p) && Guarded(seen + p, q)
    ensures Guarded(seen, p + q)
  {
    hide Guard, HasPattern;
    var all := p + q;
    forall i | 0 <= i < |all|
      ensures GuardedAt(seen, all, i)
    {
      if i < |p| {
        assert GuardedAt(seen, p, i);
        assert all[i] == p[i] && all[..i] == p[..i];
      } else {
        assert GuardedAt(seen + p, q, i - |p|);
        assert all[i] == q[i - |p|] && seen + all[..i] == seen + p + q[..i - |p|];
      }
    }
  }

  lemma GuardedMore(more: seq<Rule>, seen: seq<Rule>, rules: seq<Rule>)
    requires Guarded(seen, rules)
    ensures Guarded(more + seen, rules)
  {
    hide Guard, HasPattern;
    forall i | 0 <= i < |rules|
      ensures GuardedAt(more + seen, rules, i)
    {
      assert GuardedAt(seen, rules, i);
      if Guard(rules[i].pattern).Some? {
        HasPatternMore(more, seen + rules[..i], [], Guard(rules[i].pattern).value);
        assert more + (seen + rules[..i]) + [] == more + seen + rules[..i];
      }
    }
  }

  lemma AssociativeGuarded(op: Opcode, xa: Pattern)
    requires xa == Op2(op, Var(X), Var(A)) || xa == Op2(op, Var(A), Var(X))
    ensures Guarded([], AssociativeRules(op, xa))
  {
    hide Combine;
    var rs := AssociativeRules(op, xa);
    assert VarsOf(xa) == {X, A};
    assert Guard(rs[1].pattern) == Some(rs[0].pattern) && Guard(rs[3].pattern) == Some(rs[2].pattern);
    assert Guard(rs[0].pattern).None? && Guard(rs[2].pattern).None?;
    FirstHasPattern(rs, 0, 1);
    FirstHasPattern(rs, 2, 3);
  }

  lemma FirstHasPattern(rules: seq<Rule>, j: nat, i: nat)
    requires j < i <= |rules|
    ensures HasPattern([] + rules[..i], rules[j].pattern)
  {
    assert ([] + rules[..i])[j] == rules[j];
  }

  lemma AllAssociativeGuarded(op: Opcode)
    ensures Guarded([], AllAssociativeRules(op))
  {
    hide Guarded, AssociativeRules;
    var xa, ax := Op2(op, Var(X), Var(A)), Op2(op, Var(A), Var(X));
    AssociativeGuarded(op, xa);
    AssociativeGuarded(op, ax);
    GuardedMore(AssociativeRules(op, xa), [], AssociativeRules(op, ax));
    assert AssociativeRules(op, xa) + [] == [] + AssociativeRules(op, xa);
    GuardedConcat([], AssociativeRules(op, xa), AssociativeRules(op, ax));
  }

  lemma SubGuarded(seen: seq<Rule>)
    requires HasPattern(seen, Op2(SUB, Op2(ADD, Var(X), Var(A)), Var(B))) && HasPattern(seen, Op2(SUB, Op2(ADD, Var(A), Var(X)), Var(B)))
    requires HasPattern(seen, Op2(SUB, Var(B), Op2(ADD, Var(X), Var(A)))) && HasPattern(seen, Op2(SUB, Var(B), Op2(ADD, Var(A), Var(X))))
    ensures Guarded(seen, SubRules())
  {
    hide HasPattern;
    var rs := SubRules();
    assert VarsOf(Op2(ADD, Var(X), Var(A))) == {X, A} && VarsOf(Op2(ADD, Var(A), Var(X))) == {X, A};
    forall i | 0 <= i < |rs|
      ensures GuardedAt(seen, rs, i)
    {
      if Guard(rs[i].pattern).Some? {
        HasPatternMore([], seen, rs[..i], Guard(rs[i].pattern).value);
        assert [] + seen + rs[..i] == seen + rs[..i];
      }
    }
  }

  lemma PlainListsNoMoves()
    ensures NoMoves(ConstantRules()) && NoMoves(ShiftRules()) && NoMoves([ShadowedRule()])
    ensures NoMoves(KnownConstantRules()) && NoMoves(KnownBitRules()) && NoMoves(SelfRules())
  {
    hide FoldedValue, Mul;
  }

  lemma LogicalNoMoves()
    ensures NoMoves(LogicalRules()) && NoMoves(NegationRules())
  {
  }

  lemma ModNoMoves()
    ensures NoMoves(ModRules())
  {
    hide Guard;
    forall i | 0 <= i < WORD_BITS
      ensures Guard(ModRules()[i].pattern).None?
    {
      ModNoMove(i);
    }
  }

  lemma ModNoMove(i: nat)
    requires i < WORD_BITS
    ensures Guard(ModRule(i).pattern).None?
  {
  }

  lemma OtherNoMoves(op: Opcode, xa: Pattern)
    requires xa == Op2(ADD, Var(X), Var(A)) || xa == Op2(ADD, Var(A), Var(X))
    ensures NoMoves(AddressRules(op)) && NoMoves(AddSubRules(xa))
  {
    assert VarsOf(xa) == {X, A};
  }

  /** Appending a list whose guards, if it needs any, are in it or before it. */
  lemma JoinedRules(p: seq<Rule>, q: seq<Rule>, s: Sizes, v: Vals) returns (r: seq<Rule>)
    requires AllShrink(p, s, v) && AllShrink(q, s, v) && Guarded([], p) && (Guarded([], q) || Guarded(p, q))
    ensures r == p + q && AllShrink(r, s, v) && Guarded([], r)
  {
    hide AllShrink, Guarded;
    r := p + q;
    ShrinkConcat(p, q, s, v);
    if Guarded([], q) {
      GuardedMore(p, [], q);
      assert p + [] == p;
    }
    assert [] + p == p;
    GuardedConcat([], p, q);
  }

  lemma JoinedPlain(p: seq<Rule>, q: seq<Rule>, s: Sizes, v: Vals) returns (r: seq<Rule>)
    requires AllShrink(p, s, v) && AllShrink(q, s, v) && Guarded([], p) && NoMoves(q)
    ensures r == p + q && AllShrink(r, s, v) && Guarded([], r)
  {
    hide AllShrink, Guarded, NoMoves;
    NoMovesGuarded([], q);
    r := JoinedRules(p, q, s, v);
  }

  lemma FrontRules(s: Sizes, v: Vals) returns (r: seq<Rule>)
    requires SizesOk(s)
    ensures r == ShiftRules() + KnownConstantRules() + KnownBitRules() + SelfRules() + LogicalRules() + ModRules()
                 + AddressRules(ADDRESS) + AddressRules(CALLER) + AddressRules(ORIGIN) + AddressRules(COINBASE) + NegationRules()
    ensures AllShrink(r, s, v) && Guarded([], r)
  {
    hide AllShrink, Guarded, NoMoves, SizesOk, ShiftRules, KnownConstantRules, KnownBitRules, SelfRules, LogicalRules, ModRules, AddressRules, NegationRules;
    PlainListsNoMoves();
    LogicalNoMoves();
    ModNoMoves();
    ConstantListsShrink(s, v);
    NoMovesGuarded([], ShiftRules());
    KnownConstantShrink(s, v);
    r := JoinedPlain(ShiftRules(), KnownConstantRules(), s, v);
    KnownBitShrink(s, v);
    r := JoinedPlain(r, KnownBitRules(), s, v);
    SelfShrink(s, v);
    r := JoinedPlain(r, SelfRules(), s, v);
    LogicalShrink(s, v);
    r := JoinedPlain(r, LogicalRules(), s, v);
    ModShrink(s, v);
    r := JoinedPlain(r, ModRules(), s, v);
    r := JoinedAddress(r, ADDRESS, s, v);
    r := JoinedAddress(r, CALLER, s, v);
    r := JoinedAddress(r, ORIGIN, s, v);
    r := JoinedAddress(r, COINBASE, s, v);
    NegationShrink(s, v);
    r := JoinedPlain(r, NegationRules(), s, v);
  }

  lemma JoinedAddress(p: seq<Rule>, op: Opcode, s: Sizes, v: Vals) returns (r: seq<Rule>)
    requires AllShrink(p, s, v) && Guarded([], p) && SizesOk(s)
    ensures r == p + AddressRules(op) && AllShrink(r, s, v) && Guarded([], r)
  {
    hide AllShrink, Guarded, NoMoves, SizesOk, AddressRules;
    AddressShrink(op, s, v);
    OtherNoMoves(op, Op2(ADD, Var(X), Var(A)));
    r := JoinedPlain(p, AddressRules(op), s, v);
  }

  lemma JoinedAssociative(p: seq<Rule>, op: Opcode, s: Sizes, v: Vals) returns (r: seq<Rule>)
    requires AllShrink(p, s, v) && Guarded([], p) && SizesOk(s) && IsAssociative(op)
    ensures r == p + AllAssociativeRules(op) && AllShrink(r, s, v) && Guarded([], r)
  {
    hide AllShrink, Guarded, SizesOk, AllAssociativeRules;
    AllAssociativeShrink(op, s, v);
    AllAssociativeGuarded(op);
    r := JoinedRules(p, AllAssociativeRules(op), s, v);
  }

  lemma JoinedAddSub(p: seq<Rule>, xa: Pattern, s: Sizes, v: Vals) returns (r: seq<Rule>)
    requires AllShrink(p, s, v) && Guarded([], p) && SizesOk(s)
    requires xa == Op2(ADD, Var(X), Var(A)) || xa == Op2(ADD, Var(A), Var(X))
    ensures r == p + AddSubRules(xa) && AllShrink(r, s, v) && Guarded([], r)
    ensures HasPattern(r, Op2(SUB, xa, Var(B))) && HasPattern(r, Op2(SUB, Var(B), xa))
  {
    hide AllShrink, Guarded, SizesOk, NoMoves;
    AddSubShrink(xa, s, v);
    OtherNoMoves(ADDRESS, xa);
    r := JoinedPlain(p, AddSubRules(xa), s, v);
    var n := |p|;
    assert r[n].pattern == Op2(SUB, xa, Var(B)) && r[n + 1].pattern == Op2(SUB, Var(B), xa);
  }

  /** Every rule of the list shrinks, and the guards come first. */
  lemma RuleListShrinks(s: Sizes, v: Vals)
    requires SizesOk(s)
    ensures AllShrink(RuleList(), s, v) && Guarded([], RuleList())
  {
    hide AllShrink, Guarded, NoMoves, SizesOk, HasPattern, ConstantRules, ShiftRules, KnownConstantRules, KnownBitRules, SelfRules, LogicalRules, ModRules, AddressRules, NegationRules, AllAssociativeRules, AddSubRules, SubRules, ShadowedRule;
    var xa, ax := Op2(ADD, Var(X), Var(A)), Op2(ADD, Var(A), Var(X));
    var r := FrontRules(s, v);
    r := JoinedAssociative(r, ADD, s, v);
    r := JoinedAssociative(r, MUL, s, v);
    r := JoinedAssociative(r, AND, s, v);
    r := JoinedAssociative(r, OR, s, v);
    r := JoinedAssociative(r, XOR, s, v);
    r := JoinedAddSub(r, xa, s, v);
    var before := r;
    r := JoinedAddSub(r, ax, s, v);
    HasPatternMore([], before, AddSubRules(ax), Op2(SUB, xa, Var(B)));
    HasPatternMore([], before, AddSubRules(ax), Op2(SUB, Var(B), xa));
    assert [] + before + AddSubRules(ax) == r;
    SubGuarded(r);
    SubShrink(s, v);
    r := JoinedRules(r, SubRules(), s, v);
    assert r == RulesAfterShadowed();
    PlainListsNoMoves();
    ConstantListsShrink(s, v);
    NoMovesGuarded([], ConstantRules());
    var c := JoinedPlain(ConstantRules(), [ShadowedRule()], s, v);
    r := JoinedRules(c, r, s, v);
  }

  // ----- matching and sizes -----

  /** Constants have no arguments. */
  predicate PlainConstants(reps: seq<Expr>) {
    forall i | 0 <= i < |reps| && reps[i].item.Push? :: reps[i].args == []
  }

  /** The sizes of the classes that match groups are bound to. */
  function SizesOf(reps: seq<Expr>, b: Bindings): Sizes
    requires WellFormed(reps)
  {
    g => if g in b && b[g] < |reps| then Size(reps, b[g]) else 1
  }

  lemma BoundSizesOk(reps: seq<Expr>, b: Bindings)
    requires WellFormed(reps) && PlainConstants(reps) && ConstantsBound(b, reps)
    ensures SizesOk(SizesOf(reps, b))
  {
    forall g
      ensures SizesOf(reps, b)(g) >= 1 && (IsConstant(g) ==> SizesOf(reps, b)(g) == 1)
    {
      if g in b && IsConstant(g) {
        NoArgsSize(reps, b[g]);
      }
    }
  }

  lemma NoArgsSize(reps: seq<Expr>, id: Id)
    requires WellFormed(reps) && id < |reps| && reps[id].args == []
    ensures Size(reps, id) == 1
  {
  }

  lemma {:induction false} MatchIdSize(p: Pattern, id: Id, reps: seq<Expr>, b: Bindings, big: Bindings)
    requires WellFormed(reps) && PlainConstants(reps) && id < |reps| && MatchId(p, id, reps, b).Some?
    requires Extends(big, MatchId(p, id, reps, b).value) && BindingsIn(big, |reps|)
    ensures Extends(big, b) && VarsOf(p) <= big.Keys
    ensures Size(reps, id) == PatSize(p, SizesOf(reps, big))
    decreases p, 1
  {
    match p {
      case Var(g) =>
      case Literal(_) => SizeIsExprSize(reps, id);
      case _ =>
        SizeIsExprSize(reps, id);
        MatchExprSize(p, reps[id], reps, b, big);
    }
  }

  lemma {:induction false} MatchExprSize(p: Pattern, e: Expr, reps: seq<Expr>, b: Bindings, big: Bindings)
    requires WellFormed(reps) && PlainConstants(reps) && ArgsBelow(e, |reps|) && MatchExpr(p, e, reps, b).Some?
    requires Extends(big, MatchExpr(p, e, reps, b).value) && BindingsIn(big, |reps|)
    ensures Extends(big, b) && VarsOf(p) <= big.Keys
    ensures ExprSize(reps, e) == PatSize(p, SizesOf(reps, big))
    decreases p, 0
  {
    hide Size, ArgsSize, SizesOf, PlainConstants, BindingsIn;
    FewArgs(reps, e.args);
    match p {
      case Op0(op) =>
      case Op1(op, q) => MatchIdSize(q, e.args[0], reps, b, big);
      case Op2(op, q, r) =>
        MatchIdSize(r, e.args[1], reps, MatchId(q, e.args[0], reps, b).value, big);
        MatchIdSize(q, e.args[0], reps, b, big);
      case Op3(op, q, r, t) =>
        var b' := MatchId(q, e.args[0], reps, b).value;
        MatchIdSize(t, e.args[2], reps, MatchId(r, e.args[1], reps, b').value, big);
        MatchIdSize(r, e.args[1], reps, b', big);
        MatchIdSize(q, e.args[0], reps, b, big);
    }
  }

  // ----- a rule that moves constants does not apply to constants -----

  predicate AgreeOn(g: set<Group>, b: Bindings, c: Bindings) {
    forall x | x in g :: (x in b <==> x in c) && (x in b ==> b[x] == c[x])
  }

  /** Matching depends only on what is known about the pattern's own groups. */
  lemma {:induction false} MatchIdAgrees(p: Pattern, id: Id, reps: seq<Expr>, b: Bindings, c: Bindings, g: set<Group>)
    requires WellFormed(reps) && id < |reps| && VarsOf(p) <= g && AgreeOn(g, b, c)
    ensures MatchId(p, id, reps, b).Some? <==> MatchId(p, id, reps, c).Some?
    ensures MatchId(p, id, reps, b).Some? ==> AgreeOn(g, MatchId(p, id, reps, b).value, MatchId(p, id, reps, c).value)
    decreases p, 1
  {
    match p {
      case Var(_) =>
      case Literal(_) =>
      case _ => MatchExprAgrees(p, reps[id], reps, b, c, g);
    }
  }

  lemma {:induction false} MatchExprAgrees(p: Pattern, e: Expr, reps: seq<Expr>, b: Bindings, c: Bindings, g: set<Group>)
    requires WellFormed(reps) && ArgsBelow(e, |reps|) && VarsOf(p) <= g && AgreeOn(g, b, c)
    ensures MatchExpr(p, e, reps, b).Some? <==> MatchExpr(p, e, reps, c).Some?
    ensures MatchExpr(p, e, reps, b).Some? ==> AgreeOn(g, MatchExpr(p, e, reps, b).value, MatchExpr(p, e, reps, c).value)
    decreases p, 0
  {
    hide AgreeOn;
    match p {
      case Op1(op, q) =>
        if e.item == Operation(op) && |e.args| == 1 {
          MatchIdAgrees(q, e.args[0], reps, b, c, g);
        }
      case Op2(op, q, r) =>
        if e.item == Operation(op) && |e.args| == 2 {
          MatchIdAgrees(q, e.args[0], reps, b, c, g);
          var b', c' := MatchId(q, e.args[0], reps, b), MatchId(q, e.args[0], reps, c);
          if b'.Some? {
            MatchIdAgrees(r, e.args[1], reps, b'.value, c'.value, g);
          }
        }
      case Op3(op, q, r, t) =>
        if e.item == Operation(op) && |e.args| == 3 {
          MatchIdAgrees(q, e.args[0], reps, b, c, g);
          var b', c' := MatchId(q, e.args[0], reps, b), MatchId(q, e.args[0], reps, c);
          if b'.Some? {
            MatchIdAgrees(r, e.args[1], reps, b'.value, c'.value, g);
            var b'', c'' := MatchId(r, e.args[1], reps, b'.value), MatchId(r, e.args[1], reps, c'.value);
            if b''.Some? {
              MatchIdAgrees(t, e.args[2], reps, b''.value, c''.value, g);
            }
          }
        }
      case _ =>
    }
  }

  lemma MatchTwo(op: Opcode, q: Pattern, r: Pattern, e: Expr, reps: seq<Expr>, b: Bindings)
    requires WellFormed(reps) && ArgsBelow(e, |reps|)
    ensures MatchExpr(Op2(op, q, r), e, reps, b).Some? <==>
              && e.item == Operation(op) && |e.args| == 2 && MatchId(q, e.args[0], reps, b).Some?
              && MatchId(r, e.args[1], reps, MatchId(q, e.args[0], reps, b).value).Some?
  {
    hide MatchId;
  }

  lemma MatchVar(g: Group, id: Id, reps: seq<Expr>, b: Bindings)
    requires WellFormed(reps) && id < |reps|
    ensures MatchId(Var(g), id, reps, b) == if IsConstant(g) && !reps[id].item.Push? then None else Bind(b, g, id)
  {
    hide MatchExpr;
  }

  lemma MatchInner(p: Pattern, id: Id, reps: seq<Expr>, b: Bindings)
    requires WellFormed(reps) && id < |reps| && p.Op2?
    ensures MatchId(p, id, reps, b) == MatchExpr(p, reps[id], reps, b)
    ensures MatchId(p, id, reps, b).Some? ==> reps[id].item.Operation?
  {
    hide MatchId;
    hide Bind;
    InnerUnfolds(p, id, reps, b);
    MatchTwo(p.instr, p.left, p.right, reps[id], reps, b);
  }

  lemma InnerUnfolds(p: Pattern, id: Id, reps: seq<Expr>, b: Bindings)
    requires WellFormed(reps) && id < |reps| && p.Op2?
    ensures MatchId(p, id, reps, b) == MatchExpr(p, reps[id], reps, b)
  {
    hide MatchExpr;
  }

  /** If an argument is constant, the guard of a moving rule matches where the rule does. */
  lemma GuardMatches(p: Pattern, e: Expr, reps: seq<Expr>)
    requires WellFormed(reps) && ArgsBelow(e, |reps|) && Guard(p).Some?
    requires MatchExpr(p, e, reps, map[]).Some? && HasConstant(reps, e.args)
    ensures MatchExpr(Guard(p).value, e, reps, map[]).Some?
  {
    hide MatchExpr, MatchId, VarsOf, WellFormed;
    MatchTwo(p.instr, p.left, p.right, e, reps, map[]);
    assert reps[e.args[0]].item.Push? || reps[e.args[1]].item.Push?;
    if p.left.Op2? && p.right == Var(Y) && VarsOf(p.left) == {X, A} {
      LeftGuardMatches(p, e, reps);
    } else if p.right.Op2? && p.left == Var(Y) && VarsOf(p.right) == {X, A} {
      RightGuardMatches(p, e, reps);
    } else {
      RenamedGuardMatches(p, e, reps);
    }
  }

  lemma LeftGuardMatches(p: Pattern, e: Expr, reps: seq<Expr>)
    requires WellFormed(reps) && ArgsBelow(e, |reps|) && |e.args| == 2 && p.Op2? && p.left.Op2? && p.right == Var(Y) && VarsOf(p.left) == {X, A}
    requires MatchExpr(p, e, reps, map[]).Some? && (reps[e.args[0]].item.Push? || reps[e.args[1]].item.Push?)
    ensures MatchExpr(Op2(p.instr, p.left, Var(B)), e, reps, map[]).Some?
  {
    hide VarsOf, MatchExpr, MatchId, WellFormed;
    MatchTwo(p.instr, p.left, p.right, e, reps, map[]);
    MatchTwo(p.instr, p.left, Var(B), e, reps, map[]);
    MatchInner(p.left, e.args[0], reps, map[]);
    MatchIdKeys(p.left, e.args[0], reps, map[]);
    MatchVar(B, e.args[1], reps, MatchId(p.left, e.args[0], reps, map[]).value);
  }

  lemma RightGuardMatches(p: Pattern, e: Expr, reps: seq<Expr>)
    requires WellFormed(reps) && ArgsBelow(e, |reps|) && |e.args| == 2 && p.Op2? && p.right.Op2? && p.left == Var(Y) && VarsOf(p.right) == {X, A}
    requires MatchExpr(p, e, reps, map[]).Some? && (reps[e.args[0]].item.Push? || reps[e.args[1]].item.Push?)
    ensures MatchExpr(Op2(p.instr, Var(B), p.right), e, reps, map[]).Some?
  {
    hide VarsOf, MatchExpr, MatchId, WellFormed;
    MatchTwo(p.instr, p.left, p.right, e, reps, map[]);
    MatchTwo(p.instr, Var(B), p.right, e, reps, map[]);
    MatchVar(Y, e.args[0], reps, map[]);
    MatchVar(B, e.args[0], reps, map[]);
    var b, c := MatchId(Var(Y), e.args[0], reps, map[]).value, map[B := e.args[0]];
    MatchInner(p.right, e.args[1], reps, b);
    MatchIdAgrees(p.right, e.args[1], reps, b, c, {X, A});
  }

  lemma RenamedGuardMatches(p: Pattern, e: Expr, reps: seq<Expr>)
    requires WellFormed(reps) && ArgsBelow(e, |reps|) && |e.args| == 2 && p.Op2? && p.left == Var(X)
    requires p.right == Op2(ADD, Var(Y), Var(A)) || p.right == Op2(ADD, Var(A), Var(Y))
    requires MatchExpr(p, e, reps, map[]).Some? && (reps[e.args[0]].item.Push? || reps[e.args[1]].item.Push?)
    ensures MatchExpr(Op2(p.instr, Var(B), if p.right.left == Var(Y) then Op2(ADD, Var(X), Var(A)) else Op2(ADD, Var(A), Var(X))), e, reps, map[]).Some?
  {
    hide VarsOf, MatchExpr, MatchId, WellFormed;
    var renamed := if p.right.left == Var(Y) then Op2(ADD, Var(X), Var(A)) else Op2(ADD, Var(A), Var(X));
    MatchTwo(p.instr, p.left, p.right, e, reps, map[]);
    MatchTwo(p.instr, Var(B), renamed, e, reps, map[]);
    MatchVar(X, e.args[0], reps, map[]);
    MatchVar(B, e.args[0], reps, map[]);
    var b, c: Bindings := map[X := e.args[0]], map[B := e.args[0]];
    MatchInner(p.right, e.args[1], reps, b);
    MatchInner(renamed, e.args[1], reps, c);
    var inner := reps[e.args[1]];
    SizeIsExprSize(reps, e.args[1]);
    SimpleMatch(ADD, Y, A, inner, reps, b);
    SimpleMatch(ADD, A, Y, inner, reps, b);
    SimpleMatch(ADD, X, A, inner, reps, c);
    SimpleMatch(ADD, A, X, inner, reps, c);
  }

  /** Matching an instruction over two different groups that are not bound yet. */
  lemma SimpleMatch(op: Opcode, g: Group, h: Group, e: Expr, reps: seq<Expr>, b: Bindings)
    requires WellFormed(reps) && ArgsBelow(e, |reps|) && g != h && g !in b && h !in b
    ensures MatchExpr(Op2(op, Var(g), Var(h)), e, reps, b).Some? <==>
              && e.item == Operation(op) && |e.args| == 2
              && (IsConstant(g) ==> reps[e.args[0]].item.Push?) && (IsConstant(h) ==> reps[e.args[1]].item.Push?)
  {
    hide MatchExpr, MatchId;
    MatchTwo(op, Var(g), Var(h), e, reps, b);
    if |e.args| == 2 {
      MatchVar(g, e.args[0], reps, b);
      MatchVar(h, e.args[1], reps, b[g := e.args[0]]);
    }
  }

  lemma {:induction false} MatchIdKeys(p: Pattern, id: Id, reps: seq<Expr>, b: Bindings)
    requires WellFormed(reps) && id < |reps|
    ensures MatchId(p, id, reps, b).Some? ==> MatchId(p, id, reps, b).value.Keys <= b.Keys + VarsOf(p)
    decreases p, 1
  {
    match p {
      case Var(_) =>
      case Literal(_) =>
      case _ => MatchExprKeys(p, reps[id], reps, b);
    }
  }

  lemma {:induction false} MatchExprKeys(p: Pattern, e: Expr, reps: seq<Expr>, b: Bindings)
    requires WellFormed(reps) && ArgsBelow(e, |reps|)
    ensures MatchExpr(p, e, reps, b).Some? ==> MatchExpr(p, e, reps, b).value.Keys <= b.Keys + VarsOf(p)
    decreases p, 0
  {
    if MatchExpr(p, e, reps, b).Some? {
      match p {
        case Op1(op, q) => MatchIdKeys(q, e.args[0], reps, b);
        case Op2(op, q, r) =>
          MatchIdKeys(q, e.args[0], reps, b);
          MatchIdKeys(r, e.args[1], reps, MatchId(q, e.args[0], reps, b).value);
        case Op3(op, q, r, t) =>
          MatchIdKeys(q, e.args[0], reps, b);
          var b' := MatchId(q, e.args[0], reps, b).value;
          MatchIdKeys(r, e.args[1], reps, b');
          MatchIdKeys(t, e.args[2], reps, MatchId(r, e.args[1], reps, b').value);
        case _ =>
      }
    }
  }

  // ----- the first match -----

  /** What a rule asks for has a lower measure than the expression it is applied to. */
  function PatMeasure(p: Pattern, s: Sizes): nat {
    3 * PatSize(p, s) + PatRank(p)
  }

  lemma FixedRankIs(p: Pattern, e: Expr, reps: seq<Expr>)
    requires WellFormed(reps) && ArgsBelow(e, |reps|) && FixedRank(p) && MatchExpr(p, e, reps, map[]).Some?
    ensures Rank(reps, e) == PatRank(p)
  {
    if ConstantPattern(p.left) {
      assert reps[e.args[0]].item.Push?;
    }
    if ConstantPattern(p.right) {
      assert reps[e.args[1]].item.Push?;
    }
  }

  lemma RankOfMove(e: Expr, reps: seq<Expr>, i: nat)
    requires WellFormed(reps) && ArgsBelow(e, |reps|) && i < |RuleList()|
    requires MatchExpr(RuleList()[i].pattern, e, reps, map[]).Some? && Guard(RuleList()[i].pattern).Some?
    requires forall j | 0 <= j < i :: MatchExpr(RuleList()[j].pattern, e, reps, map[]).None?
    requires Guarded([], RuleList())
    ensures Rank(reps, e) == 2
  {
    hide RuleList, Guard, MatchExpr;
    var rules := RuleList();
    assert GuardedAt([], rules, i);
    assert [] + rules[..i] == rules[..i];
    if HasConstant(reps, e.args) {
      GuardMatches(rules[i].pattern, e, reps);
    }
  }

  /** Applying the first matching rule leads to something smaller, or of lower rank. */
  lemma FirstMatchShrinks(e: Expr, reps: seq<Expr>)
    requires WellFormed(reps) && PlainConstants(reps) && ArgsBelow(e, |reps|) && FirstMatch(RuleList(), e, reps).Some?
    ensures var (r, b) := FirstMatch(RuleList(), e, reps).value;
            var q, s := Rules.Result(r.action, ConstantVals(b, reps)), SizesOf(reps, b);
            && ConstantsBound(b, reps) && VarsOf(q) <= b.Keys
            && PatSize(q, s) <= ExprSize(reps, e) && PatMeasure(q, s) < Measure(reps, e)
  {
    hide RuleList, MatchExpr, Guard, Guarded, AllShrink, Rules.Result, ExprSize, PatSize, SizesOf, VarsOf, FixedRank, Rank, PatRank;
    var (r, b) := FirstMatch(RuleList(), e, reps).value;
    var i := FirstMatchIndex(RuleList(), e, reps);
    NothingBound(reps);
    MatchExprBinds(r.pattern, e, reps, map[]);
    BoundIn(b, reps);
    BoundSizesOk(reps, b);
    var s, v := SizesOf(reps, b), ConstantVals(b, reps);
    MatchExprSize(r.pattern, e, reps, map[], b);
    RuleListShrinks(s, v);
    ShrinksAt(i, s, v);
    if Guard(r.pattern).Some? {
      RankOfMove(e, reps, i);
    } else if FixedRank(r.pattern) {
      FixedRankIs(r.pattern, e, reps);
    }
  }

  lemma ShrinksAt(i: nat, s: Sizes, v: Vals)
    requires i < |RuleList()| && AllShrink(RuleList(), s, v)
    ensures Shrinks(RuleList()[i], s, v)
  {
    hide RuleList, Shrinks;
  }
}
