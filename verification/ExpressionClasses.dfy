/** The container of equivalence classes (libevmasm/ExpressionClasses.cpp): it hands out one number
    for all expressions it knows to be equal, simplifying every expression on the way. */
module Classes {
  import opened Wrappers
  import opened Words
  import opened Instructions
  import opened Items
  import opened Machine
  import opened Rules
  import opened RuleSizes
  import opened Semantics

  /** The exceptions of the optimiser. */
  datatype Error = StackTooDeep | OptimizerFailure | Overflow

  type Result<T> = Fallible<T, Error>

  predicate Deterministic(item: Item) {
    item.Operation? ==> IsDeterministic(item.instr)
  }

  // ----- the table as a value -----

  /** An entry of the set of all expressions ever encountered. */
  ghost predicate Recorded(reps: seq<Expr>, e: Expr, id: Id)
    requires WellFormed(reps)
  {
    && id < |reps|
    && ArgsBelow(e, |reps|)
    && (IsMemoryItem(e.item) || e.item.UndefinedItem? ==> reps[id] == e)
    && (!IsMemoryItem(e.item) ==> Means(reps, e.item, e.args, id))
  }

  ghost predicate TableOk(reps: seq<Expr>, expressions: map<Expr, Id>) {
    && WellFormed(reps)
    && (forall i | 0 <= i < |reps| :: ArityOk(reps[i]))
    && forall e | e in expressions :: Recorded(reps, e, expressions[e])
  }

  /** What a lookup promises about the class it returns. */
  ghost predicate Found(reps: seq<Expr>, item: Item, args: seq<Id>, seqNr: nat, id: Id)
    requires WellFormed(reps)
  {
    && id < |reps|
    && (IsMemoryItem(item) || item.UndefinedItem? ==> reps[id] == Expr(item, args, seqNr))
    && (!IsMemoryItem(item) ==> Means(reps, item, args, id))
  }

  /** A lookup only appends classes; new loads and stores appear only as the expression looked up. */
  ghost predicate Grown(before: seq<Expr>, after: seq<Expr>, e: Expr) {
    && before <= after
    && WellFormed(after)
    && (NoMemory(after[|before|..]) || (IsMemoryItem(e.item) && after == before + [e]))
  }

  /** The class built for a pattern has the value of the pattern. */
  ghost predicate Rebuilt(reps: seq<Expr>, p: Pattern, b: Bindings, id: Id)
    requires WellFormed(reps)
  {
    && id < |reps|
    && forall init | ValidInit(init) :: RebuiltAt(init, reps, p, b, id)
  }

  ghost predicate RebuiltAt(init: Init, reps: seq<Expr>, p: Pattern, b: Bindings, id: Id)
    requires WellFormed(reps) && id < |reps|
  {
    Nu(init, reps)[id] == Value(init.env, init.world.outside, p, Valuation(b, Nu(init, reps)))
  }

  function Sorted(item: Item, args: seq<Id>): seq<Id> {
    if IsCommutativeItem(item) && |args| == 2 && args[1] < args[0] then [args[1], args[0]] else args
  }

  lemma RecordedGrows(reps: seq<Expr>, bigger: seq<Expr>, e: Expr, id: Id)
    requires WellFormed(reps) && WellFormed(bigger) && reps <= bigger && Recorded(reps, e, id)
    ensures Recorded(bigger, e, id)
  {
    hide Means;
    if !IsMemoryItem(e.item) {
      MeansGrows(reps, bigger, e.item, e.args, id);
    }
  }

  lemma TableGrows(reps: seq<Expr>, expressions: map<Expr, Id>, bigger: seq<Expr>)
    requires TableOk(reps, expressions) && WellFormed(bigger) && reps <= bigger
    requires forall i | 0 <= i < |bigger| :: ArityOk(bigger[i])
    ensures TableOk(bigger, expressions)
  {
    hide Recorded, ArityOk;
    forall e | e in expressions
      ensures Recorded(bigger, e, expressions[e])
    {
      RecordedGrows(reps, bigger, e, expressions[e]);
    }
  }

  lemma FoundGrows(reps: seq<Expr>, bigger: seq<Expr>, item: Item, args: seq<Id>, seqNr: nat, id: Id)
    requires WellFormed(reps) && WellFormed(bigger) && reps <= bigger && Found(reps, item, args, seqNr, id)
    ensures Found(bigger, item, args, seqNr, id)
  {
    hide Means;
    if !IsMemoryItem(item) {
      MeansGrows(reps, bigger, item, args, id);
    }
  }

  lemma RebuiltGrows(reps: seq<Expr>, bigger: seq<Expr>, p: Pattern, b: Bindings, id: Id)
    requires WellFormed(reps) && WellFormed(bigger) && reps <= bigger && Rebuilt(reps, p, b, id)
    requires BindingsIn(b, |reps|)
    ensures Rebuilt(bigger, p, b, id)
  {
    hide Value, Interp, Nu, ValidInit;
    forall init | ValidInit(init)
      ensures RebuiltAt(init, bigger, p, b, id)
    {
      assert RebuiltAt(init, reps, p, b, id);
      InterpPrefix(init, bigger, |reps|);
      assert bigger[..|reps|] == reps;
      assert Nu(init, bigger)[..|reps|][id] == Nu(init, bigger)[id];
      ValuationPrefix(b, Nu(init, bigger), |reps|);
    }
  }

  lemma ValuationPrefix(b: Bindings, nu: seq<Word>, n: nat)
    requires n <= |nu| && BindingsIn(b, n)
    ensures Valuation(b, nu) == Valuation(b, nu[..n])
  {
  }

  /** A new class has the meaning of the expression it is made of. */
  lemma NewClassMeans(reps: seq<Expr>, e: Expr)
    requires WellFormed(reps) && ArgsBelow(e, |reps|) && !IsMemoryItem(e.item)
    ensures WellFormed(reps + [e])
    ensures Means(reps + [e], e.item, e.args, |reps|)
  {
    hide Interp, PureMeaning, ValidInit;
    var bigger := reps + [e];
    forall init | ValidInit(init)
      ensures MeansAt(init, bigger, e.item, e.args, |reps|)
    {
      NuAt(init, bigger, |reps|);
    }
  }

  /** Sorting the arguments of a commutative operation keeps the meaning. */
  lemma MeansSorted(reps: seq<Expr>, item: Item, args: seq<Id>, id: Id)
    requires WellFormed(reps) && Means(reps, item, Sorted(item, args), id)
    ensures Means(reps, item, args, id)
  {
    hide Interp, PureMeaning, ValidInit, Nu;
    if Sorted(item, args) != args {
      assert Sorted(item, args) == [args[1], args[0]];
      assert args[0] == Sorted(item, args)[1] && args[1] == Sorted(item, args)[0];
      forall init | ValidInit(init)
        ensures MeansAt(init, reps, item, args, id)
      {
        assert MeansAt(init, reps, item, Sorted(item, args), id);
        var nu := Nu(init, reps);
        CommutedMeaning(init, item.instr, nu[args[0]], nu[args[1]]);
        assert ArgValues(nu, args) == [nu[args[0]], nu[args[1]]];
        assert ArgValues(nu, Sorted(item, args)) == [nu[args[1]], nu[args[0]]];
      }
    }
  }

  lemma CommutedMeaning(init: Init, op: Opcode, x: Word, y: Word)
    requires IsCommutative(op)
    ensures PureMeaning(init, Operation(op), [x, y]) == PureMeaning(init, Operation(op), [y, x])
  {
    hide IsCommutative, Arithmetic, ArgCount, IsArithmetic;
    CommutativeArguments(op, x, y);
    ArithmeticIsPure(init.env, init.world.outside, op, [x, y]);
    ArithmeticIsPure(init.env, init.world.outside, op, [y, x]);
  }

  /** The class rebuilt from the first matching rule has the meaning of the matched expression. */
  lemma SimplifiedMeans(reps: seq<Expr>, bigger: seq<Expr>, e: Expr, id: Id)
    requires WellFormed(reps) && WellFormed(bigger) && reps <= bigger && ArgsBelow(e, |reps|)
    requires FirstMatch(RuleList(), e, reps).Some?
    requires var (r, b) := FirstMatch(RuleList(), e, reps).value;
             Rebuilt(bigger, Rules.Result(r.action, ConstantVals(b, reps)), b, id)
    ensures Means(bigger, e.item, e.args, id)
  {
    hide Value, Interp, Nu, PureValue, Denotes, RuleList, FirstMatch, Rules.Result, ConstantsBound;
    var (r, b) := FirstMatch(RuleList(), e, reps).value;
    FirstMatchShape(e, reps);
    BoundIn(b, reps);
    forall init | ValidInit(init)
      ensures MeansAt(init, bigger, e.item, e.args, id)
    {
      assert RebuiltAt(init, bigger, Rules.Result(r.action, ConstantVals(b, reps)), b, id);
      NuDenotes(init, reps);
      FirstMatchSound(init.env, init.world.outside, e, reps, Nu(init, reps));
      InterpPrefix(init, bigger, |reps|);
      assert bigger[..|reps|] == reps;
      ValuationPrefix(b, Nu(init, bigger), |reps|);
      ArgValuesPrefix(Nu(init, bigger), |reps|, e.args);
    }
  }

  // ----- knowledge about values -----

  /** The class has this value in every initial state. */
  ghost predicate AlwaysIs(reps: seq<Expr>, id: Id, v: Word)
    requires WellFormed(reps)
  {
    id < |reps| && forall init | ValidInit(init) :: Nu(init, reps)[id] == v
  }

  ghost predicate AlwaysNonZero(reps: seq<Expr>, id: Id)
    requires WellFormed(reps)
  {
    id < |reps| && forall init | ValidInit(init) :: Nu(init, reps)[id] != 0
  }

  ghost predicate AlwaysDifferent(reps: seq<Expr>, a: Id, b: Id)
    requires WellFormed(reps)
  {
    a < |reps| && b < |reps| && forall init | ValidInit(init) :: Nu(init, reps)[a] != Nu(init, reps)[b]
  }

  // -- the answers of queries --

  ghost predicate ZeroTest(reps: seq<Expr>, id: Id, test: Id, answer: bool)
    requires WellFormed(reps)
  {
    Found(reps, Operation(ISZERO), [id], 0, test) && (reps[test].item == Push(0) <==> answer)
  }

  /** Whether the class found for the comparison with zero is the constant zero. */
  ghost predicate TestedNonZero(reps: seq<Expr>, id: Id, answer: bool)
    requires WellFormed(reps)
  {
    exists test :: ZeroTest(reps, id, test, answer)
  }

  ghost predicate DifferenceTest(reps: seq<Expr>, a: Id, b: Id, diff: Id, answer: bool)
    requires WellFormed(reps)
  {
    Found(reps, Operation(SUB), [a, b], 0, diff) && TestedNonZero(reps, diff, answer)
  }

  /** Whether the class found for the difference is known not to be zero. */
  ghost predicate TestedDifferent(reps: seq<Expr>, a: Id, b: Id, answer: bool)
    requires WellFormed(reps)
  {
    exists diff :: DifferenceTest(reps, a, b, diff, answer)
  }

  ghost predicate DistanceTest(reps: seq<Expr>, a: Id, b: Id, diff: Id, answer: bool)
    requires WellFormed(reps)
  {
    && Found(reps, Operation(SUB), [a, b], 0, diff)
    && (answer <==> reps[diff].item.Push? && Add(reps[diff].item.data, 31) > 62)
  }

  /** Whether the class found for the difference is a constant outside -31 to 31. */
  ghost predicate TestedApart(reps: seq<Expr>, a: Id, b: Id, answer: bool)
    requires WellFormed(reps)
  {
    exists diff :: DistanceTest(reps, a, b, diff, answer)
  }

  lemma TestsGrow(reps: seq<Expr>, bigger: seq<Expr>, a: Id, b: Id, answer: bool)
    requires WellFormed(reps) && WellFormed(bigger) && reps <= bigger
    ensures TestedNonZero(reps, a, answer) ==> TestedNonZero(bigger, a, answer)
    ensures TestedDifferent(reps, a, b, answer) ==> TestedDifferent(bigger, a, b, answer)
    ensures TestedApart(reps, a, b, answer) ==> TestedApart(bigger, a, b, answer)
  {
    hide Found;
    forall x, test | ZeroTest(reps, x, test, answer)
      ensures ZeroTest(bigger, x, test, answer)
    {
      FoundStays(reps, bigger, Operation(ISZERO), [x], test);
    }
    if diff :| DifferenceTest(reps, a, b, diff, answer) {
      FoundStays(reps, bigger, Operation(SUB), [a, b], diff);
      assert DifferenceTest(bigger, a, b, diff, answer);
    }
    if diff :| DistanceTest(reps, a, b, diff, answer) {
      FoundStays(reps, bigger, Operation(SUB), [a, b], diff);
      assert DistanceTest(bigger, a, b, diff, answer);
    }
  }

  lemma FoundStays(reps: seq<Expr>, bigger: seq<Expr>, item: Item, args: seq<Id>, id: Id)
    requires WellFormed(reps) && WellFormed(bigger) && reps <= bigger && Found(reps, item, args, 0, id)
    ensures Found(bigger, item, args, 0, id) && id < |reps| && bigger[id] == reps[id]
  {
    hide Means;
    FoundGrows(reps, bigger, item, args, 0, id);
  }

  /** Words stored at the two addresses never overlap. */
  ghost predicate AlwaysApart(reps: seq<Expr>, a: Id, b: Id)
    requires WellFormed(reps)
  {
    a < |reps| && b < |reps| && forall init | ValidInit(init) :: Abs(Nu(init, reps)[a] as int - Nu(init, reps)[b] as int) >= 32
  }

  lemma NuPrefix(init: Init, reps: seq<Expr>, bigger: seq<Expr>)
    requires WellFormed(reps) && WellFormed(bigger) && reps <= bigger
    ensures forall id | 0 <= id < |reps| :: Nu(init, bigger)[id] == Nu(init, reps)[id]
  {
    hide Nu;
    InterpPrefix(init, bigger, |reps|);
    assert bigger[..|reps|] == reps;
    forall id | 0 <= id < |reps|
      ensures Nu(init, bigger)[id] == Nu(init, reps)[id]
    {
      assert Nu(init, bigger)[id] == Nu(init, bigger)[..|reps|][id];
    }
  }

  lemma DifferentGrows(reps: seq<Expr>, bigger: seq<Expr>, a: Id, b: Id)
    requires WellFormed(reps) && WellFormed(bigger) && reps <= bigger
    ensures AlwaysDifferent(reps, a, b) ==> AlwaysDifferent(bigger, a, b)
    ensures AlwaysApart(reps, a, b) ==> AlwaysApart(bigger, a, b)
  {
    hide Nu, ValidInit;
    forall init: Init
      ensures a < |reps| && b < |reps| ==>
                Nu(init, bigger)[a] == Nu(init, reps)[a] && Nu(init, bigger)[b] == Nu(init, reps)[b]
    {
      NuPrefix(init, reps, bigger);
    }
  }

  /** A class whose representative is a constant has that value. */
  lemma ConstantIs(reps: seq<Expr>, id: Id)
    requires WellFormed(reps) && id < |reps| && reps[id].item.Push?
    ensures AlwaysIs(reps, id, reps[id].item.data)
  {
    hide Interp, Nu, ValidInit;
    forall init | ValidInit(init)
      ensures Nu(init, reps)[id] == reps[id].item.data
    {
      NuAt(init, reps, id);
    }
  }

  lemma NonZeroTest(reps: seq<Expr>, bigger: seq<Expr>, id: Id, test: Id)
    requires WellFormed(reps) && WellFormed(bigger) && reps <= bigger && id < |reps|
    requires Means(bigger, Operation(ISZERO), [id], test) && AlwaysIs(bigger, test, 0)
    ensures AlwaysNonZero(bigger, id)
  {
    hide Interp, Nu, PureValue, ValidInit;
    forall init | ValidInit(init)
      ensures Nu(init, bigger)[id] != 0
    {
      assert MeansAt(init, bigger, Operation(ISZERO), [id], test);
      assert ArgValues(Nu(init, bigger), [id]) == [Nu(init, bigger)[id]];
      Table1(init.env, init.world.outside, Nu(init, bigger)[id]);
    }
  }

  lemma DifferenceIs(init: Init, reps: seq<Expr>, a: Id, b: Id, diff: Id)
    requires WellFormed(reps) && Means(reps, Operation(SUB), [a, b], diff) && ValidInit(init)
    ensures a < |reps| && b < |reps|
    ensures Nu(init, reps)[diff] == Sub(Nu(init, reps)[a], Nu(init, reps)[b])
  {
    hide Interp, Nu, PureValue, ValidInit;
    assert MeansAt(init, reps, Operation(SUB), [a, b], diff);
    assert [a, b][0] == a && [a, b][1] == b;
    assert ArgValues(Nu(init, reps), [a, b]) == [Nu(init, reps)[a], Nu(init, reps)[b]];
    Table2(init.env, init.world.outside, Nu(init, reps)[a], Nu(init, reps)[b]);
  }

  lemma DifferentTest(reps: seq<Expr>, a: Id, b: Id, diff: Id)
    requires WellFormed(reps) && Means(reps, Operation(SUB), [a, b], diff)
    ensures AlwaysNonZero(reps, diff) ==> AlwaysDifferent(reps, a, b)
  {
    hide Interp, Nu, PureValue, ValidInit, Means;
    MeansShape(reps, Operation(SUB), [a, b], diff);
    assert [a, b][0] == a && [a, b][1] == b;
    if AlwaysNonZero(reps, diff) {
      forall init | ValidInit(init)
        ensures Nu(init, reps)[a] != Nu(init, reps)[b]
      {
        DifferenceIs(init, reps, a, b, diff);
      }
    }
  }

  lemma MeansShape(reps: seq<Expr>, item: Item, args: seq<Id>, id: Id)
    requires WellFormed(reps) && Means(reps, item, args, id)
    ensures id < |reps| && forall j | 0 <= j < |args| :: args[j] < |reps|
  {
  }

  /** The forbidden interval for the difference is from -31 to 31, modulo 2^256. */
  lemma ApartTest(reps: seq<Expr>, a: Id, b: Id, diff: Id, v: Word)
    requires WellFormed(reps) && Means(reps, Operation(SUB), [a, b], diff)
    requires AlwaysIs(reps, diff, v) && Add(v, 31) > 62
    ensures AlwaysApart(reps, a, b)
  {
    hide Interp, Nu, PureValue, ValidInit, Means;
    MeansShape(reps, Operation(SUB), [a, b], diff);
    assert [a, b][0] == a && [a, b][1] == b;
    forall init | ValidInit(init)
      ensures Abs(Nu(init, reps)[a] as int - Nu(init, reps)[b] as int) >= 32
    {
      DifferenceIs(init, reps, a, b, diff);
      ApartWords(Nu(init, reps)[a], Nu(init, reps)[b]);
    }
  }

  lemma ApartWords(x: Word, y: Word)
    ensures Add(Sub(x, y), 31) > 62 <==> 32 <= Abs(x - y) <= WORD_BASE - 32
  {
    if x < y {
      WrapStep(x - y);
    }
    if Sub(x, y) as int + 31 >= WORD_BASE {
      WrapStep(Sub(x, y) as int + 31 - WORD_BASE);
    }
  }

  // ----- laws of the lookup -----

  lemma SortedArgs(item: Item, args: seq<Id>, n: nat, seqNr: nat)
    requires ArgsBelow(Expr(item, args, seqNr), n)
    ensures ArgsBelow(Expr(item, Sorted(item, args), seqNr), n)
    ensures |Sorted(item, args)| == |args|
    ensures !item.Operation? || IsMemoryItem(item) ==> Sorted(item, args) == args
  {
    hide ArgCount;
    var sorted := Sorted(item, args);
    if sorted != args {
      assert sorted == [args[1], args[0]];
    }
  }

  /** What is known about a recorded expression is what its lookup promises. */
  lemma FoundRecorded(reps: seq<Expr>, item: Item, args: seq<Id>, seqNr: nat, id: Id)
    requires WellFormed(reps) && Recorded(reps, Expr(item, Sorted(item, args), seqNr), id)
    requires ArgsBelow(Expr(item, args, seqNr), |reps|)
    ensures Found(reps, item, args, seqNr, id)
  {
    hide Means;
    SortedArgs(item, args, |reps|, seqNr);
    if !IsMemoryItem(item) {
      MeansSorted(reps, item, args, id);
    }
  }

  lemma AppendClass(reps: seq<Expr>, expressions: map<Expr, Id>, e: Expr)
    requires TableOk(reps, expressions) && ArgsBelow(e, |reps|) && ArityOk(e)
    ensures TableOk(reps + [e], expressions) && Recorded(reps + [e], e, |reps|)
  {
    hide Means, Recorded, ArityOk;
    TableGrows(reps, expressions, reps + [e]);
    RecordedNew(reps, e);
  }

  lemma RecordedNew(reps: seq<Expr>, e: Expr)
    requires WellFormed(reps) && ArgsBelow(e, |reps|)
    ensures WellFormed(reps + [e]) && Recorded(reps + [e], e, |reps|)
  {
    hide Means;
    if !IsMemoryItem(e.item) {
      NewClassMeans(reps, e);
    }
  }

  lemma AddRecord(reps: seq<Expr>, expressions: map<Expr, Id>, e: Expr, id: Id)
    requires TableOk(reps, expressions) && Recorded(reps, e, id)
    ensures TableOk(reps, expressions[e := id])
  {
    hide Recorded, ArityOk;
  }

  /** Only other classes than loads and stores have been appended. */
  ghost predicate PureGrowth(before: seq<Expr>, after: seq<Expr>) {
    before <= after && NoMemory(after[|before|..])
  }

  lemma PureGrowthTransitive(a: seq<Expr>, b: seq<Expr>, c: seq<Expr>)
    requires PureGrowth(a, b) && PureGrowth(b, c)
    ensures PureGrowth(a, c)
  {
    forall i | 0 <= i < |c[|a|..]|
      ensures IsUnsequenced(c[|a|..][i])
    {
      if |a| + i < |b| {
        assert c[|a|..][i] == b[|a|..][i];
      } else {
        assert c[|a|..][i] == c[|b|..][|a| + i - |b|];
      }
    }
  }

  lemma PureGrowthOne(a: seq<Expr>, e: Expr)
    ensures PureGrowth(a, a)
    ensures IsUnsequenced(e) ==> PureGrowth(a, a + [e])
  {
    assert a[|a|..] == [] && (a + [e])[|a|..] == [e];
  }

  lemma SimplifiableIsPure(e: Expr, reps: seq<Expr>)
    requires WellFormed(reps) && ArgsBelow(e, |reps|) && FirstMatch(RuleList(), e, reps).Some?
    ensures !IsMemoryItem(e.item)
    ensures var (r, b) := FirstMatch(RuleList(), e, reps).value;
            && BindingsIn(b, |reps|) && WellBuilt(Rules.Result(r.action, ConstantVals(b, reps)))
            && AtMostTwo(Rules.Result(r.action, ConstantVals(b, reps)))
  {
    hide FirstMatch, RuleList, WellBuiltAction, WellBuilt, Rules.Result, ConstantVals, ConstantsBound;
    var (r, b) := FirstMatch(RuleList(), e, reps).value;
    FirstMatchShape(e, reps);
    BoundIn(b, reps);
    ResultWellBuilt(r.action, ConstantVals(b, reps));
  }

  lemma RebuiltIn(reps: seq<Expr>, p: Pattern, b: Bindings, id: Id)
    requires WellFormed(reps) && Rebuilt(reps, p, b, id)
    ensures id < |reps|
  {
  }

  lemma VarRebuilt(reps: seq<Expr>, g: Group, b: Bindings)
    requires WellFormed(reps) && BindingsIn(b, |reps|) && g in b
    ensures Rebuilt(reps, Var(g), b, b[g])
  {
    hide Interp, Nu, ValidInit;
    forall init | ValidInit(init)
      ensures RebuiltAt(init, reps, Var(g), b, b[g])
    {
    }
  }

  lemma LiteralRebuilt(reps: seq<Expr>, w: Word, b: Bindings, id: Id)
    requires WellFormed(reps) && Means(reps, Push(w), [], id)
    ensures Rebuilt(reps, Literal(w), b, id)
  {
    hide Interp, Nu, ValidInit;
    forall init | ValidInit(init)
      ensures RebuiltAt(init, reps, Literal(w), b, id)
    {
      assert MeansAt(init, reps, Push(w), [], id);
    }
  }

  lemma GrownPure(before: seq<Expr>, after: seq<Expr>, e: Expr)
    requires PureGrowth(before, after) && WellFormed(after)
    ensures Grown(before, after, e)
  {
  }

  lemma GrownByOne(before: seq<Expr>, after: seq<Expr>, e: Expr)
    requires PureGrowth(before, after) && WellFormed(after + [e])
    requires if IsMemoryItem(e.item) then after == before else e.seqNr == 0
    ensures Grown(before, after + [e], e)
  {
    hide IsMemoryItem, NoMemory;
    if !IsMemoryItem(e.item) {
      PureGrowthOne(after, e);
      PureGrowthTransitive(before, after, after + [e]);
    }
  }

  lemma GrownSorted(before: seq<Expr>, after: seq<Expr>, item: Item, args: seq<Id>, seqNr: nat)
    requires ArgsBelow(Expr(item, args, seqNr), |before|)
    requires Grown(before, after, Expr(item, Sorted(item, args), seqNr))
    ensures Grown(before, after, Expr(item, args, seqNr))
  {
    SortedArgs(item, args, |before|, seqNr);
  }

  lemma RecordedPure(reps: seq<Expr>, e: Expr, id: Id)
    requires WellFormed(reps) && ArgsBelow(e, |reps|) && Means(reps, e.item, e.args, id)
    requires e.item.Operation? && !IsMemoryItem(e.item)
    ensures Recorded(reps, e, id)
  {
  }

  lemma MemoryItemsDeterministic(item: Item)
    ensures IsMemoryItem(item) ==> item.Operation? && Deterministic(item)
  {
  }

  /** Looking up anything but a load or a store. */
  lemma PureFound(before: seq<Expr>, after: seq<Expr>, item: Item, args: seq<Id>, id: Id)
    requires WellFormed(after) && Grown(before, after, Expr(item, args, 0)) && !IsMemoryItem(item)
    ensures PureGrowth(before, after)
    ensures Found(after, item, args, 0, id) ==> Means(after, item, args, id)
  {
    hide Means, NoMemory;
  }

  lemma WellBuiltNode(p: Pattern)
    requires WellBuilt(p) && !p.Var? && !p.Literal?
    ensures |Children(p)| == Arguments(Operation(p.instr))
    ensures IsExpressible(Operation(p.instr)) && !IsMemoryItem(Operation(p.instr)) && !IsStoreItem(Operation(p.instr))
    ensures Deterministic(Operation(p.instr))
    ensures forall i | 0 <= i < |Children(p)| :: WellBuilt(Children(p)[i])
  {
    hide ArgCount;
  }

  lemma TestArity()
    ensures Arguments(Operation(ISZERO)) == 1 && Arguments(Operation(SUB)) == 2
    ensures !IsMemoryItem(Operation(ISZERO)) && !IsMemoryItem(Operation(SUB))
    ensures IsExpressible(Operation(ISZERO)) && IsExpressible(Operation(SUB))
  {
  }

  function Children(p: Pattern): seq<Pattern> {
    match p
    case Op1(_, q) => [q]
    case Op2(_, q, r) => [q, r]
    case Op3(_, q, r, s) => [q, r, s]
    case _ => []
  }

  lemma NodeRebuilt(reps: seq<Expr>, p: Pattern, b: Bindings, ids: seq<Id>, id: Id)
    requires WellFormed(reps) && !p.Var? && !p.Literal?
    requires |ids| == |Children(p)| && forall i | 0 <= i < |ids| :: Rebuilt(reps, Children(p)[i], b, ids[i])
    requires Means(reps, Operation(p.instr), ids, id)
    ensures Rebuilt(reps, p, b, id)
  {
    hide Interp, Nu, ValidInit, PureValue, Children;
    forall init | ValidInit(init)
      ensures RebuiltAt(init, reps, p, b, id)
    {
      assert MeansAt(init, reps, Operation(p.instr), ids, id);
      forall i | 0 <= i < |ids|
        ensures Nu(init, reps)[ids[i]] == Value(init.env, init.world.outside, Children(p)[i], Valuation(b, Nu(init, reps)))
      {
        assert Rebuilt(reps, Children(p)[i], b, ids[i]);
        assert RebuiltAt(init, reps, Children(p)[i], b, ids[i]);
      }
      NodeValue(init, reps, p, b, ids);
    }
  }

  lemma NodeValue(init: Init, reps: seq<Expr>, p: Pattern, b: Bindings, ids: seq<Id>)
    requires WellFormed(reps) && !p.Var? && !p.Literal?
    requires |ids| == |Children(p)| && forall i | 0 <= i < |ids| :: ids[i] < |reps|
    requires forall i | 0 <= i < |ids| ::
      Nu(init, reps)[ids[i]] == Value(init.env, init.world.outside, Children(p)[i], Valuation(b, Nu(init, reps)))
    ensures PureValue(init.env, init.world.outside, p.instr, ArgValues(Nu(init, reps), ids)) ==
            Value(init.env, init.world.outside, p, Valuation(b, Nu(init, reps)))
  {
    hide Interp, Nu, PureValue, Valuation;
    var v := Valuation(b, Nu(init, reps));
    var vals := ArgValues(Nu(init, reps), ids);
    match p
    case Op0(op) =>
      assert vals == [];
    case Op1(op, q) =>
      assert Children(p)[0] == q;
      assert vals == [Value(init.env, init.world.outside, q, v)];
    case Op2(op, q, r) =>
      assert Children(p)[0] == q && Children(p)[1] == r;
      assert vals == [Value(init.env, init.world.outside, q, v), Value(init.env, init.world.outside, r, v)];
    case Op3(op, q, r, s) =>
      assert Children(p)[0] == q && Children(p)[1] == r && Children(p)[2] == s;
      assert vals == [Value(init.env, init.world.outside, q, v), Value(init.env, init.world.outside, r, v), Value(init.env, init.world.outside, s, v)];
  }

  // ----- sizes in the table -----

  /** The class recorded for an expression is not larger, and constants are recorded as themselves. */
  predicate SizeRecorded(reps: seq<Expr>, e: Expr, id: Id)
    requires WellFormed(reps)
  {
    ArgsBelow(e, |reps|) && id < |reps| && Size(reps, id) <= ExprSize(reps, e) && (e.item.Push? ==> reps[id].item == e.item)
  }

  predicate SizesRecorded(reps: seq<Expr>, expressions: map<Expr, Id>)
    requires WellFormed(reps)
  {
    forall e | e in expressions :: SizeRecorded(reps, e, expressions[e])
  }

  lemma SizeRecordedGrows(reps: seq<Expr>, bigger: seq<Expr>, e: Expr, id: Id)
    requires WellFormed(reps) && WellFormed(bigger) && reps <= bigger && SizeRecorded(reps, e, id)
    ensures SizeRecorded(bigger, e, id)
  {
    hide WellFormed, Size, ExprSize;
    SizeGrows(reps, bigger, id);
    ExprSizeGrows(reps, bigger, e);
  }

  lemma SizesGrow(reps: seq<Expr>, bigger: seq<Expr>, expressions: map<Expr, Id>)
    requires WellFormed(reps) && WellFormed(bigger) && reps <= bigger && SizesRecorded(reps, expressions)
    ensures SizesRecorded(bigger, expressions)
  {
    hide WellFormed, SizeRecorded;
    forall e | e in expressions
      ensures SizeRecorded(bigger, e, expressions[e])
    {
      SizeRecordedGrows(reps, bigger, e, expressions[e]);
    }
  }

  /** A new class is as large as its expression. */
  lemma NewSize(reps: seq<Expr>, e: Expr)
    requires WellFormed(reps) && ArgsBelow(e, |reps|)
    ensures WellFormed(reps + [e]) && SizeRecorded(reps + [e], e, |reps|)
  {
    hide Size, ExprSize;
    var more := reps + [e];
    forall i | 0 <= i < |more|
      ensures ArgsBelow(more[i], i)
    {
      assert i < |reps| ==> more[i] == reps[i];
    }
    SizeIsExprSize(more, |reps|);
  }

  lemma TablePlainConstants(reps: seq<Expr>, expressions: map<Expr, Id>)
    requires TableOk(reps, expressions)
    ensures PlainConstants(reps)
  {
    hide Recorded, ArgCount;
    forall i | 0 <= i < |reps| && reps[i].item.Push?
      ensures reps[i].args == []
    {
      assert ArityOk(reps[i]);
    }
  }

  /** Sorting the arguments changes neither size nor rank. */
  lemma SortedMeasure(reps: seq<Expr>, item: Item, args: seq<Id>, seqNr: nat)
    requires WellFormed(reps) && ArgsBelow(Expr(item, args, seqNr), |reps|) && ArgsBelow(Expr(item, Sorted(item, args), seqNr), |reps|)
    ensures ExprSize(reps, Expr(item, Sorted(item, args), seqNr)) == ExprSize(reps, Expr(item, args, seqNr))
    ensures Measure(reps, Expr(item, Sorted(item, args), seqNr)) == Measure(reps, Expr(item, args, seqNr))
  {
    hide WellFormed, Size, ArgsSize;
    FewArgs(reps, args);
    FewArgs(reps, Sorted(item, args));
    if |args| == 2 && Sorted(item, args) != args {
      assert HasConstant(reps, args) <==> reps[args[0]].item.Push? || reps[args[1]].item.Push?;
      var sorted := Sorted(item, args);
      assert HasConstant(reps, sorted) <==> reps[sorted[0]].item.Push? || reps[sorted[1]].item.Push?;
    }
  }

  /** The class of an instance of a pattern: its size, and whether it is a constant. */
  predicate SizeBuilt(reps: seq<Expr>, p: Pattern, b: Bindings, id: Id)
    requires WellFormed(reps)
  {
    id < |reps| && Size(reps, id) <= PatSize(p, SizesOf(reps, b)) && (ConstantPattern(p) ==> reps[id].item.Push?)
  }

  lemma {:induction false} PatSizeSame(p: Pattern, s: Sizes, t: Sizes)
    requires forall g :: s(g) == t(g)
    ensures PatSize(p, s) == PatSize(p, t)
  {
    match p {
      case Op1(_, q) => PatSizeSame(q, s, t);
      case Op2(_, q, r) => PatSizeSame(q, s, t); PatSizeSame(r, s, t);
      case Op3(_, q, r, u) => PatSizeSame(q, s, t); PatSizeSame(r, s, t); PatSizeSame(u, s, t);
      case _ =>
    }
  }

  lemma PatSizeGrows(reps: seq<Expr>, bigger: seq<Expr>, p: Pattern, b: Bindings)
    requires WellFormed(reps) && WellFormed(bigger) && reps <= bigger && BindingsIn(b, |reps|)
    ensures PatSize(p, SizesOf(bigger, b)) == PatSize(p, SizesOf(reps, b))
  {
    hide WellFormed, Size;
    forall g
      ensures SizesOf(bigger, b)(g) == SizesOf(reps, b)(g)
    {
      if g in b {
        SizeGrows(reps, bigger, b[g]);
      }
    }
    PatSizeSame(p, SizesOf(bigger, b), SizesOf(reps, b));
  }

  lemma SizeBuiltGrows(reps: seq<Expr>, bigger: seq<Expr>, p: Pattern, b: Bindings, id: Id)
    requires WellFormed(reps) && WellFormed(bigger) && reps <= bigger && BindingsIn(b, |reps|) && SizeBuilt(reps, p, b, id)
    ensures SizeBuilt(bigger, p, b, id)
  {
    hide WellFormed, Size, SizesOf;
    PatSizeGrows(reps, bigger, p, b);
    SizeGrows(reps, bigger, id);
  }

  /** Parts of a pattern have a lower measure. */
  lemma ChildMeasure(p: Pattern, i: nat, s: Sizes)
    requires SizesOk(s) && i < |Children(p)|
    ensures PatMeasure(Children(p)[i], s) < PatMeasure(p, s) && VarsOf(Children(p)[i]) <= VarsOf(p)
  {
    hide PatRank;
    match p {
      case Op1(_, q) => PatSizePositive(q, s);
      case Op2(_, q, r) => PatSizePositive(q, s); PatSizePositive(r, s);
      case Op3(_, q, r, t) => PatSizePositive(q, s); PatSizePositive(r, s); PatSizePositive(t, s);
      case _ =>
    }
  }

  /** The expression of a pattern node over the classes of its parts. */
  lemma NodeMeasure(reps: seq<Expr>, p: Pattern, b: Bindings, ids: seq<Id>)
    requires WellFormed(reps) && !p.Var? && !p.Literal? && |ids| == |Children(p)|
    requires forall i | 0 <= i < |ids| :: SizeBuilt(reps, Children(p)[i], b, ids[i])
    ensures ArgsBelow(Expr(Operation(p.instr), ids, 0), |reps|)
    ensures ExprSize(reps, Expr(Operation(p.instr), ids, 0)) <= PatSize(p, SizesOf(reps, b))
    ensures Measure(reps, Expr(Operation(p.instr), ids, 0)) <= PatMeasure(p, SizesOf(reps, b))
  {
    hide WellFormed, Size, ArgsSize, SizesOf;
    FewArgs(reps, ids);
    if |ids| > 0 {
      assert SizeBuilt(reps, Children(p)[0], b, ids[0]);
    }
    if |ids| > 1 {
      assert SizeBuilt(reps, Children(p)[1], b, ids[1]);
    }
    if |ids| > 2 {
      assert SizeBuilt(reps, Children(p)[2], b, ids[2]);
    }
  }

  lemma LiteralMeasure(reps: seq<Expr>, w: Word, s: Sizes)
    requires WellFormed(reps)
    ensures Measure(reps, Expr(Push(w), [], 0)) == PatMeasure(Literal(w), s) && ExprSize(reps, Expr(Push(w), [], 0)) == 1
  {
    hide WellFormed;
  }

  lemma RecordedSize(reps: seq<Expr>, expressions: map<Expr, Id>, e: Expr)
    requires WellFormed(reps) && SizesRecorded(reps, expressions) && e in expressions
    ensures SizeRecorded(reps, e, expressions[e])
  {
    hide WellFormed, SizeRecorded;
  }

  lemma AddSize(reps: seq<Expr>, expressions: map<Expr, Id>, e: Expr, id: Id)
    requires WellFormed(reps) && SizesRecorded(reps, expressions) && SizeRecorded(reps, e, id)
    ensures SizesRecorded(reps, expressions[e := id])
  {
    hide WellFormed, SizeRecorded;
  }

  lemma UnsortedSize(reps: seq<Expr>, item: Item, args: seq<Id>, seqNr: nat, id: Id)
    requires WellFormed(reps) && ArgsBelow(Expr(item, args, seqNr), |reps|) && ArgsBelow(Expr(item, Sorted(item, args), seqNr), |reps|)
    requires SizeRecorded(reps, Expr(item, Sorted(item, args), seqNr), id)
    ensures SizeRecorded(reps, Expr(item, args, seqNr), id)
  {
    hide WellFormed, Size, ExprSize, Sorted;
    SortedMeasure(reps, item, args, seqNr);
  }

  lemma VarSize(reps: seq<Expr>, g: Group, b: Bindings)
    requires WellFormed(reps) && ConstantsBound(b, reps) && g in b
    ensures SizeBuilt(reps, Var(g), b, b[g])
  {
    hide WellFormed, Size;
  }

  /** What is needed to go on after a part of a pattern has been built. */
  lemma NodeReady(reps: seq<Expr>, bigger: seq<Expr>, p: Pattern, b: Bindings)
    requires WellFormed(reps) && WellFormed(bigger) && reps <= bigger && ConstantsBound(b, reps)
    ensures ConstantsBound(b, bigger) && PatMeasure(p, SizesOf(bigger, b)) == PatMeasure(p, SizesOf(reps, b))
    ensures BoundValues(b, reps) ==> BoundValues(b, bigger)
  {
    hide WellFormed, SizesOf, PatSize, IsStoreItem;
    PatSizeGrows(reps, bigger, p, b);
  }

  lemma ChildGrows(reps: seq<Expr>, bigger: seq<Expr>, before: map<Expr, Id>, after: map<Expr, Id>, q: Pattern, b: Bindings, id: Id)
    requires WellFormed(reps) && WellFormed(bigger) && reps <= bigger && BindingsIn(b, |reps|)
    requires Rebuilt(reps, q, b, id) && SizeBuilt(reps, q, b, id)
    requires Remembers(before, after) && ClassOf(before, q, b) == Some(id)
    ensures Rebuilt(bigger, q, b, id) && SizeBuilt(bigger, q, b, id)
    ensures IsValue(reps, id) ==> IsValue(bigger, id)
    ensures ClassOf(after, q, b) == Some(id)
  {
    hide WellFormed, Rebuilt, SizeBuilt, Remembers, ClassOf;
    ClassStays(before, after, q, b);
    RebuiltGrows(reps, bigger, q, b, id);
    SizeBuiltGrows(reps, bigger, q, b, id);
  }

  lemma WellBuiltChild(p: Pattern, i: nat)
    requires WellBuilt(p) && i < |Children(p)|
    ensures WellBuilt(Children(p)[i]) && (AtMostTwo(p) ==> AtMostTwo(Children(p)[i]))
  {
    hide HasArity;
  }

  lemma NodeSize(before: seq<Expr>, reps: seq<Expr>, p: Pattern, b: Bindings, ids: seq<Id>, id: Id)
    requires WellFormed(before) && WellFormed(reps) && before <= reps && BindingsIn(b, |before|) && !p.Var? && !p.Literal? && |ids| == |Children(p)|
    requires forall i | 0 <= i < |ids| :: SizeBuilt(before, Children(p)[i], b, ids[i])
    requires SizeRecorded(reps, Expr(Operation(p.instr), ids, 0), id)
    ensures SizeBuilt(reps, p, b, id)
  {
    hide WellFormed, Size, SizesOf, PatSize, ExprSize, Children;
    NodeMeasure(before, p, b, ids);
    PatSizeGrows(before, reps, p, b);
    ExprSizeGrows(before, reps, Expr(Operation(p.instr), ids, 0));
  }

  // ----- the container -----

  /** A pushed tag in the table has to be one of the given items; others are not restricted. */
  ghost predicate MayPush(item: Item, pushed: iset<Item>) {
    item.PushTag? ==> item in pushed
  }

  ghost predicate TagsFrom(reps: seq<Expr>, pushed: iset<Item>) {
    forall i | 0 <= i < |reps| :: MayPush(reps[i].item, pushed)
  }

  lemma TagsFromAppend(reps: seq<Expr>, e: Expr, pushed: iset<Item>)
    requires TagsFrom(reps, pushed) && MayPush(e.item, pushed)
    ensures TagsFrom(reps + [e], pushed)
  {
    hide MayPush;
  }

  /** Instructions take two values at most, and what is not a store is a value. */
  ghost predicate Tidy(reps: seq<Expr>, expressions: map<Expr, Id>) {
    && (forall i | 0 <= i < |reps| :: Usable(reps, reps[i].args))
    && (forall e | e in expressions && !IsStoreItem(e.item) :: IsValue(reps, expressions[e]))
  }

  lemma TidyAppend(reps: seq<Expr>, expressions: map<Expr, Id>, e: Expr)
    requires Tidy(reps, expressions) && Usable(reps, e.args)
    ensures Tidy(reps + [e], expressions)
    ensures !IsStoreItem(e.item) ==> IsValue(reps + [e], |reps|)
  {
    hide Usable, IsStoreItem;
    ValueGrows(reps, reps + [e]);
  }

  lemma TidyRecord(reps: seq<Expr>, expressions: map<Expr, Id>, e: Expr, id: Id)
    requires Tidy(reps, expressions) && (!IsStoreItem(e.item) ==> IsValue(reps, id))
    ensures Tidy(reps, expressions[e := id])
  {
    hide Usable, IsStoreItem, IsValue;
  }

  lemma TidyFound(reps: seq<Expr>, expressions: map<Expr, Id>, e: Expr)
    requires Tidy(reps, expressions) && e in expressions
    ensures !IsStoreItem(e.item) ==> IsValue(reps, expressions[e])
  {
    hide Usable, IsStoreItem, IsValue;
  }

  lemma SortedValues(reps: seq<Expr>, item: Item, args: seq<Id>)
    requires Usable(reps, args)
    ensures Usable(reps, Sorted(item, args))
  {
    hide IsValue;
  }

  lemma ValueList(reps: seq<Expr>, ids: seq<Id>)
    requires |ids| <= 3
    ensures Usable(reps, ids) <==> |ids| <= 2 && (|ids| > 0 ==> IsValue(reps, ids[0])) && (|ids| > 1 ==> IsValue(reps, ids[1]))
  {
    hide IsValue;
  }

  lemma BoundIsValue(reps: seq<Expr>, b: Bindings, g: Group)
    requires g in b
    ensures BoundValues(b, reps) ==> IsValue(reps, b[g])
  {
    hide IsValue;
  }

  // ----- what is remembered -----

  /** Nothing that was recorded is forgotten or changed. */
  predicate Remembers(before: map<Expr, Id>, after: map<Expr, Id>) {
    forall e | e in before :: e in after && after[e] == before[e]
  }

  /** The expression is recorded under this class, whatever the order of commutative arguments. */
  predicate RecordedAs(expressions: map<Expr, Id>, item: Item, args: seq<Id>, seqNr: nat, id: Id) {
    var e := Expr(item, Sorted(item, args), seqNr);
    e in expressions && expressions[e] == id
  }

  lemma RemembersSelf(x: map<Expr, Id>)
    ensures Remembers(x, x)
  {
  }

  lemma StillRecorded(before: map<Expr, Id>, after: map<Expr, Id>, item: Item, args: seq<Id>, seqNr: nat, id: Id)
    requires Remembers(before, after) && RecordedAs(before, item, args, seqNr, id)
    ensures RecordedAs(after, item, args, seqNr, id)
  {
  }

  /** The tables after each of several lookups. */
  predicate LookupsRemember(tables: seq<map<Expr, Id>>) {
    forall i | 0 < i < |tables| :: Remembers(tables[i - 1], tables[i])
  }

  predicate SameArguments(item: Item, args: seq<Id>, args': seq<Id>) {
    args' == args || (IsCommutativeItem(item) && |args| == 2 && args' == [args[1], args[0]])
  }

  /** However many lookups lie in between, looking up the same again gives the same class. */
  lemma {:induction false} RecordedOnce(tables: seq<map<Expr, Id>>, item: Item, args: seq<Id>, args': seq<Id>, seqNr: nat, id: Id, again: Id)
    requires |tables| > 0 && LookupsRemember(tables) && SameArguments(item, args, args')
    requires RecordedAs(tables[0], item, args, seqNr, id) && RecordedAs(tables[|tables| - 1], item, args', seqNr, again)
    ensures id == again
  {
    assert Sorted(item, args) == Sorted(item, args');
    if |tables| > 1 {
      assert Remembers(tables[0], tables[1]);
      StillRecorded(tables[0], tables[1], item, args, seqNr, id);
      RecordedOnce(tables[1..], item, args, args', seqNr, id, again);
    }
  }

  /** The expression that a class was made of is recorded under this class. */
  predicate OwnClasses(reps: seq<Expr>, expressions: map<Expr, Id>) {
    forall i | 0 <= i < |reps| && Deterministic(reps[i].item) :: reps[i] in expressions && expressions[reps[i]] == i
  }

  /** There are no two classes for the same expression. */
  lemma ClassesDiffer(reps: seq<Expr>, expressions: map<Expr, Id>, i: Id, j: Id)
    requires OwnClasses(reps, expressions) && i < |reps| && j < |reps|
    ensures reps[i] == reps[j] && Deterministic(reps[i].item) ==> i == j
  {
  }

  lemma OwnAppend(reps: seq<Expr>, expressions: map<Expr, Id>, e: Expr)
    requires OwnClasses(reps, expressions) && (Deterministic(e.item) ==> e !in expressions)
    ensures OwnClasses(reps + [e], if e in expressions then expressions else expressions[e := |reps|])
  {
    hide Deterministic;
  }

  lemma OwnRecord(reps: seq<Expr>, expressions: map<Expr, Id>, e: Expr, id: Id)
    requires OwnClasses(reps, expressions)
    ensures OwnClasses(reps, if e in expressions then expressions else expressions[e := id])
  {
    hide Deterministic;
  }

  /** What is recorded in addition is not larger than m and does not stand for elements of the initial stack. */
  predicate AddsUpTo(reps: seq<Expr>, before: map<Expr, Id>, after: map<Expr, Id>, m: nat)
    requires WellFormed(reps)
  {
    && Remembers(before, after)
    && forall e | e in after && e !in before :: ArgsBelow(e, |reps|) && Measure(reps, e) <= m && !e.item.UndefinedItem?
  }

  predicate NoInputs(before: map<Expr, Id>, after: map<Expr, Id>) {
    forall e | e in after && e !in before :: !e.item.UndefinedItem?
  }

  /** What is recorded in addition, other than this expression, does not stand for elements of the initial stack. */
  predicate NewInputs(before: map<Expr, Id>, after: map<Expr, Id>, own: Expr) {
    forall e | e in after && e !in before && e.item.UndefinedItem? :: e == own
  }

  lemma MeasureGrows(reps: seq<Expr>, bigger: seq<Expr>, e: Expr)
    requires WellFormed(reps) && WellFormed(bigger) && reps <= bigger && ArgsBelow(e, |reps|)
    ensures ArgsBelow(e, |bigger|) && Measure(bigger, e) == Measure(reps, e)
  {
    hide ExprSize, WellFormed;
    ExprSizeGrows(reps, bigger, e);
  }

  lemma AddsRemember(reps: seq<Expr>, before: map<Expr, Id>, after: map<Expr, Id>, m: nat)
    requires WellFormed(reps) && AddsUpTo(reps, before, after, m)
    ensures Remembers(before, after) && NoInputs(before, after)
  {
    hide WellFormed, Measure, ArgsBelow;
  }

  lemma AddsWeaker(reps: seq<Expr>, before: map<Expr, Id>, after: map<Expr, Id>, m: nat, n: nat)
    requires WellFormed(reps) && AddsUpTo(reps, before, after, m) && m <= n
    ensures AddsUpTo(reps, before, after, n)
  {
    hide WellFormed, Measure, ArgsBelow;
  }

  lemma AddsNothing(reps: seq<Expr>, expressions: map<Expr, Id>, m: nat)
    requires WellFormed(reps)
    ensures AddsUpTo(reps, expressions, expressions, m)
  {
  }

  lemma AddsMore(reps: seq<Expr>, bigger: seq<Expr>, a: map<Expr, Id>, b: map<Expr, Id>, c: map<Expr, Id>, m: nat, n: nat)
    requires WellFormed(reps) && WellFormed(bigger) && reps <= bigger && m <= n
    requires AddsUpTo(reps, a, b, m) && AddsUpTo(bigger, b, c, n)
    ensures AddsUpTo(bigger, a, c, n)
  {
    hide WellFormed, Measure, ArgsBelow;
    forall e | e in c && e !in a
      ensures ArgsBelow(e, |bigger|) && Measure(bigger, e) <= n && !e.item.UndefinedItem?
    {
      if e in b {
        MeasureGrows(reps, bigger, e);
      }
    }
  }

  /** Two steps of growth in a row. */
  lemma BothGrow(reps: seq<Expr>, more: seq<Expr>, most: seq<Expr>, a: map<Expr, Id>, b: map<Expr, Id>, c: map<Expr, Id>, m: nat)
    requires WellFormed(reps) && WellFormed(more) && WellFormed(most) && PureGrowth(reps, more) && PureGrowth(more, most)
    requires AddsUpTo(more, a, b, m) && AddsUpTo(most, b, c, m)
    ensures PureGrowth(reps, most) && AddsUpTo(most, a, c, m) && Remembers(b, c)
  {
    hide WellFormed, AddsUpTo, NoMemory;
    PureGrowthTransitive(reps, more, most);
    AddsMore(more, most, a, b, c, m, m);
    AddsRemember(most, b, c, m);
  }

  /** Looking up something smaller does not record the expression itself. */
  lemma NotAdded(reps: seq<Expr>, before: map<Expr, Id>, after: map<Expr, Id>, e: Expr, m: nat)
    requires WellFormed(reps) && AddsUpTo(reps, before, after, m) && ArgsBelow(e, |reps|) && Measure(reps, e) > m && e !in before
    ensures e !in after
  {
    hide WellFormed, Measure, ArgsBelow;
  }

  /** The class that is recorded for a pattern whose match groups are bound. */
  function ClassOf(expressions: map<Expr, Id>, p: Pattern, b: Bindings): Option<Id> {
    match p
    case Var(g) => if g in b then Some(b[g]) else None
    case Literal(w) => Lookup(expressions, Push(w), [])
    case Op0(op) => Lookup(expressions, Operation(op), [])
    case Op1(op, q) =>
      var x := ClassOf(expressions, q, b);
      if x.None? then None else Lookup(expressions, Operation(op), [x.value])
    case Op2(op, q, r) =>
      var x, y := ClassOf(expressions, q, b), ClassOf(expressions, r, b);
      if x.None? || y.None? then None else Lookup(expressions, Operation(op), [x.value, y.value])
    case Op3(op, q, r, s) =>
      var x, y, z := ClassOf(expressions, q, b), ClassOf(expressions, r, b), ClassOf(expressions, s, b);
      if x.None? || y.None? || z.None? then None else Lookup(expressions, Operation(op), [x.value, y.value, z.value])
  }

  function Lookup(expressions: map<Expr, Id>, item: Item, args: seq<Id>): Option<Id> {
    var e := Expr(item, Sorted(item, args), 0);
    if e in expressions then Some(expressions[e]) else None
  }

  lemma {:induction false} ClassStays(before: map<Expr, Id>, after: map<Expr, Id>, p: Pattern, b: Bindings)
    requires Remembers(before, after) && ClassOf(before, p, b).Some?
    ensures ClassOf(after, p, b) == ClassOf(before, p, b)
  {
    hide Sorted;
    match p
    case Op1(_, q) => ClassStays(before, after, q, b);
    case Op2(_, q, r) => ClassStays(before, after, q, b); ClassStays(before, after, r, b);
    case Op3(_, q, r, t) => ClassStays(before, after, q, b); ClassStays(before, after, r, b); ClassStays(before, after, t, b);
    case _ =>
  }

  lemma ClassOfNode(expressions: map<Expr, Id>, p: Pattern, b: Bindings, ids: seq<Id>, id: Id)
    requires !p.Var? && !p.Literal? && |ids| == |Children(p)|
    requires forall i | 0 <= i < |ids| :: ClassOf(expressions, Children(p)[i], b) == Some(ids[i])
    requires RecordedAs(expressions, Operation(p.instr), ids, 0, id)
    ensures ClassOf(expressions, p, b) == Some(id)
  {
    hide Sorted;
    match p
    case Op0(_) => assert ids == [];
    case Op1(_, q) => assert Children(p)[0] == q && ids == [ids[0]];
    case Op2(_, q, r) => assert Children(p)[0] == q && Children(p)[1] == r && ids == [ids[0], ids[1]];
    case Op3(_, q, r, t) =>
      assert Children(p)[0] == q && Children(p)[1] == r && Children(p)[2] == t && ids == [ids[0], ids[1], ids[2]];
  }

  lemma NodeStays(before: map<Expr, Id>, after: map<Expr, Id>, p: Pattern, b: Bindings, ids: seq<Id>, id: Id)
    requires !p.Var? && !p.Literal? && |ids| == |Children(p)| && Remembers(before, after)
    requires forall i | 0 <= i < |ids| :: ClassOf(before, Children(p)[i], b) == Some(ids[i])
    requires RecordedAs(after, Operation(p.instr), ids, 0, id)
    ensures ClassOf(after, p, b) == Some(id)
  {
    hide ClassOf, Children, RecordedAs, Remembers;
    forall i | 0 <= i < |ids|
      ensures ClassOf(after, Children(p)[i], b) == Some(ids[i])
    {
      ClassStays(before, after, Children(p)[i], b);
    }
    ClassOfNode(after, p, b, ids, id);
  }

  lemma LeafClass(expressions: map<Expr, Id>, b: Bindings)
    ensures forall g | g in b :: ClassOf(expressions, Var(g), b) == Some(b[g])
    ensures forall w: Word, id: Id | RecordedAs(expressions, Push(w), [], 0, id) :: ClassOf(expressions, Literal(w), b) == Some(id)
  {
  }

  /** The first matching rule. */
  function Applicable(e: Expr, reps: seq<Expr>): (r: Option<(Rule, Bindings)>)
    requires WellFormed(reps) && ArgsBelow(e, |reps|)
  {
    if e.item.Operation? && Deterministic(e.item) then FirstMatch(RuleList(), e, reps) else None
  }

  /** The pattern a rule makes of an expression. */
  function Outcome(found: (Rule, Bindings), reps: seq<Expr>): Pattern {
    Rules.Result(found.0.action, ConstantVals(found.1, reps))
  }

  /** A rule is applied whenever one matches, and it gives the class of what the rule makes of the expression. */
  predicate Simplified(before: seq<Expr>, reps: seq<Expr>, expressions: map<Expr, Id>, now: map<Expr, Id>, e: Expr, r: Option<Id>, m: nat)
    requires WellFormed(before) && WellFormed(reps) && ArgsBelow(e, |before|)
  {
    match Applicable(e, before)
    case None => r == None && reps == before && now == expressions
    case Some(found) =>
      && r.Some? && ClassOf(now, Outcome(found, before), found.1) == r
      && m > 0 && AddsUpTo(reps, expressions, now, m - 1)
  }

  /** What a lookup records for an expression that is new: the class of what the first matching rule makes of
      it, or else a new class with the expression itself. */
  predicate Simplest(before: seq<Expr>, reps: seq<Expr>, now: map<Expr, Id>, e: Expr, id: Id)
    requires WellFormed(before) && ArgsBelow(e, |before|)
  {
    match Applicable(e, before)
    case None => reps == before + [e] && id == |before|
    case Some(found) => ClassOf(now, Outcome(found, before), found.1) == Some(id)
  }

  /** The end of a lookup: the class is recorded. */
  lemma LookupAdds(before: seq<Expr>, reps: seq<Expr>, expressions: map<Expr, Id>, now: map<Expr, Id>, e: Expr, id: Id, r: Option<Id>, m: nat)
    requires WellFormed(before) && WellFormed(reps) && before <= reps && ArgsBelow(e, |before|) && Measure(before, e) == m
    requires Simplified(before, if r.Some? then reps else before, expressions, now, e, r, m)
    requires if r.Some? then id == r.value else id == |before| && reps == before + [e]
    ensures var recorded := if e in now then now else now[e := id];
            && (if e.item.UndefinedItem? then recorded == (if e in expressions then expressions else expressions[e := id])
                else AddsUpTo(reps, expressions, recorded, m))
            && (e !in expressions ==> recorded[e] == id && Simplest(before, reps, recorded, e, id))
  {
    hide WellFormed, Measure, ArgsBelow, FirstMatch, RuleList, ClassOf, Outcome;
    MeasureGrows(before, reps, e);
    if r.Some? {
      var found := Applicable(e, before).value;
      AddsWeaker(reps, expressions, now, m - 1, m);
      if e !in expressions {
        NotAdded(reps, expressions, now, e, m - 1);
        ClassStays(now, now[e := id], Outcome(found, before), found.1);
      }
    }
  }

  lemma LookupRemembers(reps: seq<Expr>, before: map<Expr, Id>, after: map<Expr, Id>, e: Expr, id: Id, m: nat)
    requires WellFormed(reps)
    requires if e.item.UndefinedItem? then after == (if e in before then before else before[e := id]) else AddsUpTo(reps, before, after, m)
    ensures Remembers(before, after) && NewInputs(before, after, e)
  {
    hide WellFormed, Measure, ArgsBelow;
  }

  // ----- matched classes are values -----

  predicate BoundValues(b: Bindings, reps: seq<Expr>) {
    forall g | g in b :: IsValue(reps, b[g])
  }

  lemma {:induction false} MatchIdValues(p: Pattern, id: Id, reps: seq<Expr>, expressions: map<Expr, Id>, b: Bindings)
    requires WellFormed(reps) && Tidy(reps, expressions) && IsValue(reps, id) && BoundValues(b, reps)
    ensures var r := MatchId(p, id, reps, b); r.Some? ==> BoundValues(r.value, reps)
    decreases p, 1
  {
    match p
    case Var(_) =>
    case Literal(_) =>
    case _ => MatchExprValues(p, reps[id], reps, expressions, b);
  }

  lemma {:induction false} MatchExprValues(p: Pattern, e: Expr, reps: seq<Expr>, expressions: map<Expr, Id>, b: Bindings)
    requires WellFormed(reps) && Tidy(reps, expressions) && ArgsBelow(e, |reps|) && Usable(reps, e.args) && BoundValues(b, reps)
    ensures var r := MatchExpr(p, e, reps, b); r.Some? ==> BoundValues(r.value, reps)
    decreases p, 0
  {
    hide BoundValues, Tidy, WellFormed;
    if MatchExpr(p, e, reps, b).Some? {
      match p
      case Op1(op, q) => MatchIdValues(q, e.args[0], reps, expressions, b);
      case Op2(op, q, r) =>
        MatchIdValues(q, e.args[0], reps, expressions, b);
        MatchIdValues(r, e.args[1], reps, expressions, MatchId(q, e.args[0], reps, b).value);
      case _ =>
    }
  }

  lemma {:induction false} FirstMatchValues(rules: seq<Rule>, e: Expr, reps: seq<Expr>, expressions: map<Expr, Id>)
    requires WellFormed(reps) && Tidy(reps, expressions) && ArgsBelow(e, |reps|) && Usable(reps, e.args)
    ensures FirstMatch(rules, e, reps).Some? ==> BoundValues(FirstMatch(rules, e, reps).value.1, reps)
  {
    hide Tidy, WellFormed, Usable, MatchExpr;
    if rules != [] {
      MatchExprValues(rules[0].pattern, e, reps, expressions, map[]);
      FirstMatchValues(rules[1..], e, reps, expressions);
    }
  }

  lemma TestsAreValues()
    ensures !IsStoreItem(Operation(ISZERO)) && !IsStoreItem(Operation(SUB))
  {
  }

  class ExpressionClasses {
    var representatives: seq<Expr>
    var expressions: map<Expr, Id>
    /** The pushed tags that may be looked up. */
    ghost const pushed: iset<Item>

    ghost predicate Valid()
      reads this
    {
      && TableOk(representatives, expressions) && SizesRecorded(representatives, expressions)
      && TagsFrom(representatives, pushed) && OwnClasses(representatives, expressions)
    }

    constructor (ghost pushed: iset<Item>)
      ensures Valid() && representatives == [] && expressions == map[] && this.pushed == pushed && Tidy(representatives, expressions)
    {
      this.pushed := pushed;
      representatives := [];
      expressions := map[];
    }

    /** The class of an item applied to classes; it might be a new one. */
    method Find(item: Item, args: seq<Id>, seqNr: nat) returns (id: Id)
      requires Valid() && ArgsBelow(Expr(item, args, seqNr), |representatives|) && |args| == Arguments(item)
      requires IsExpressible(item) && (IsMemoryItem(item) || seqNr == 0) && MayPush(item, pushed)
      modifies this
      ensures Valid() && old(representatives) <= representatives && Grown(old(representatives), representatives, Expr(item, args, seqNr))
      ensures Found(representatives, item, args, seqNr, id)
      ensures old(Tidy(representatives, expressions) && Usable(representatives, args)) ==>
                Tidy(representatives, expressions) && (!IsStoreItem(item) ==> IsValue(representatives, id))
      ensures Remembers(old(expressions), expressions) && NewInputs(old(expressions), expressions, Expr(item, Sorted(item, args), seqNr))
      ensures Deterministic(item) ==> RecordedAs(expressions, item, args, seqNr, id)
      ensures Deterministic(item) && Expr(item, Sorted(item, args), seqNr) in old(expressions) ==>
                representatives == old(representatives) && expressions == old(expressions)
      ensures ArgsBelow(Expr(item, Sorted(item, args), seqNr), |old(representatives)|)
      ensures Expr(item, Sorted(item, args), seqNr) !in old(expressions) ==>
                Simplest(old(representatives), representatives, expressions, Expr(item, Sorted(item, args), seqNr), id)
    {
      hide AddsUpTo, OwnClasses, Measure, NewInputs, Tidy, Usable, IsValue, IsStoreItem, Found, NoMemory, Sorted, Simplest, Remembers, WellFormed, SizeRecorded;
      SortedArgs(item, args, |representatives|, seqNr);
      id := FindAt(item, args, seqNr, Measure(representatives, Expr(item, args, seqNr)));
    }

    /** The same; m goes down with every nested application of a rule. */
    method FindAt(item: Item, args: seq<Id>, seqNr: nat, ghost m: nat) returns (id: Id)
      requires Valid() && ArgsBelow(Expr(item, args, seqNr), |representatives|) && |args| == Arguments(item)
      requires IsExpressible(item) && (IsMemoryItem(item) || seqNr == 0) && MayPush(item, pushed)
      requires m == Measure(representatives, Expr(item, args, seqNr))
      modifies this
      ensures Valid() && Grown(old(representatives), representatives, Expr(item, args, seqNr))
      ensures Found(representatives, item, args, seqNr, id)
      ensures SizeRecorded(representatives, Expr(item, args, seqNr), id)
      ensures old(Tidy(representatives, expressions) && Usable(representatives, args)) ==>
                Tidy(representatives, expressions) && (!IsStoreItem(item) ==> IsValue(representatives, id))
      ensures !item.UndefinedItem? ==> AddsUpTo(representatives, old(expressions), expressions, m)
      ensures Remembers(old(expressions), expressions) && NewInputs(old(expressions), expressions, Expr(item, Sorted(item, args), seqNr))
      ensures Deterministic(item) ==> RecordedAs(expressions, item, args, seqNr, id)
      ensures Deterministic(item) && Expr(item, Sorted(item, args), seqNr) in old(expressions) ==>
                representatives == old(representatives) && expressions == old(expressions)
      ensures ArgsBelow(Expr(item, Sorted(item, args), seqNr), |old(representatives)|)
      ensures Expr(item, Sorted(item, args), seqNr) !in old(expressions) ==>
                Simplest(old(representatives), representatives, expressions, Expr(item, Sorted(item, args), seqNr), id)
      decreases m, 1
    {
      hide AddsUpTo, Simplest, OwnClasses, Tidy, Usable, IsValue, IsStoreItem, Recorded, Found, Grown, Sorted, IsMemoryItem, NoMemory, Arguments, Means, WellFormed, SizeRecorded, SizesRecorded, TagsFrom, Measure;
      var e := Expr(item, Sorted(item, args), seqNr);
      SortedArgs(item, args, |representatives|, seqNr);
      SortedMeasure(representatives, item, args, seqNr);
      PureGrowthOne(representatives, e);
      ghost var tidy := Tidy(representatives, expressions) && Usable(representatives, args);
      if tidy {
        SortedValues(representatives, item, args);
      }
      if Deterministic(item) && e in expressions {
        FoundRecorded(representatives, item, args, seqNr, expressions[e]);
        GrownPure(representatives, representatives, Expr(item, args, seqNr));
        AddsNothing(representatives, expressions, m);
        RemembersSelf(expressions);
        RecordedSize(representatives, expressions, e);
        UnsortedSize(representatives, item, args, seqNr, expressions[e]);
        if tidy {
          TidyFound(representatives, expressions, e);
        }
        return expressions[e];
      }
      var simpler := TryToSimplify(e, m);
      ValueGrows(old(representatives), representatives);
      GrownPure(old(representatives), representatives, Expr(item, args, seqNr));
      if simpler.Some? {
        id := simpler.value;
        OwnRecord(representatives, expressions, e, id);
        RecordedPure(representatives, e, id);
      } else {
        id := |representatives|;
        OwnAppend(representatives, expressions, e);
        AppendClass(representatives, expressions, e);
        NewSize(representatives, e);
        SizesGrow(representatives, representatives + [e], expressions);
        TagsFromAppend(representatives, e, pushed);
        if tidy {
          TidyAppend(representatives, expressions, e);
        }
        GrownByOne(old(representatives), representatives, e);
        GrownSorted(old(representatives), representatives + [e], item, args, seqNr);
        representatives := representatives + [e];
      }
      MeasureGrows(old(representatives), representatives, e);
      LookupAdds(old(representatives), representatives, old(expressions), expressions, e, id, simpler, m);
      LookupRemembers(representatives, old(expressions), if e in expressions then expressions else expressions[e := id], e, id, m);
      if e !in expressions {
        AddRecord(representatives, expressions, e, id);
        AddSize(representatives, expressions, e, id);
        if tidy {
          TidyRecord(representatives, expressions, e, id);
        }
        expressions := expressions[e := id];
      }
      FoundRecorded(representatives, item, args, seqNr, id);
      SortedArgs(item, args, |representatives|, seqNr);
      UnsortedSize(representatives, item, args, seqNr, id);
    }

    /** Applies the first matching rule, if there is one. */
    method TryToSimplify(e: Expr, ghost m: nat) returns (r: Option<Id>)
      requires Valid() && ArgsBelow(e, |representatives|) && m == Measure(representatives, e)
      modifies this
      ensures Valid() && PureGrowth(old(representatives), representatives)
      ensures IsMemoryItem(e.item) ==> r == None
      ensures r == None ==> representatives == old(representatives) && expressions == old(expressions)
      ensures r.Some? ==> e.item.Operation? && Means(representatives, e.item, e.args, r.value) && SizeRecorded(representatives, e, r.value)
      ensures old(Tidy(representatives, expressions) && Usable(representatives, e.args)) ==>
                Tidy(representatives, expressions) && (r.Some? ==> IsValue(representatives, r.value))
      ensures Simplified(old(representatives), representatives, old(expressions), expressions, e, r, m)
      decreases m, 0
    {
      hide AddsUpTo, OwnClasses, ClassOf, Tidy, Usable, IsValue, BoundValues, Means, FirstMatch, RuleList, IsMemoryItem, NoMemory, Recorded, ArityOk, Rules.Result, ConstantVals, WellBuilt,  WellFormed, Measure, PatMeasure, ExprSize, Size, SizesOf, PatSize, SizesRecorded, TagsFrom;
      PureGrowthOne(representatives, e);
      if !e.item.Operation? || !Deterministic(e.item) {
        MemoryItemsDeterministic(e.item);
        return None;
      }
      match FirstMatch(RuleList(), e, representatives)
      case None =>
        r := None;
      case Some((rule, b)) =>
        SimplifiableIsPure(e, representatives);
        TablePlainConstants(representatives, expressions);
        FirstMatchShrinks(e, representatives);
        var p := Rules.Result(rule.action, ConstantVals(b, representatives));
        if Tidy(representatives, expressions) && Usable(representatives, e.args) {
          FirstMatchValues(RuleList(), e, representatives, expressions);
        }
        var id := Rebuild(p, b, m - 1);
        SimplifiedMeans(old(representatives), representatives, e, id);
        PatSizeGrows(old(representatives), representatives, p, b);
        ExprSizeGrows(old(representatives), representatives, e);
        r := Some(id);
    }

    /** Builds the class of a pattern from the classes its match groups are bound to. */
    method Rebuild(p: Pattern, b: Bindings, ghost limit: nat) returns (id: Id)
      requires Valid() && ConstantsBound(b, representatives) && VarsOf(p) <= b.Keys && WellBuilt(p)
      requires PatMeasure(p, SizesOf(representatives, b)) <= limit
      modifies this
      ensures Valid() && PureGrowth(old(representatives), representatives)
      ensures Rebuilt(representatives, p, b, id) && SizeBuilt(representatives, p, b, id)
      ensures old(Tidy(representatives, expressions) && BoundValues(b, representatives)) && AtMostTwo(p) ==>
                Tidy(representatives, expressions) && IsValue(representatives, id)
      ensures AddsUpTo(representatives, old(expressions), expressions, limit) && ClassOf(expressions, p, b) == Some(id)
      decreases limit, 3, p
    {
      hide AddsUpTo, OwnClasses, ClassOf, Simplest, Sorted, Tidy, Usable, IsValue, BoundValues, Means, Rebuilt, Recorded, ArityOk, NoMemory, IsMemoryOp, ArgCount, WellFormed, PatMeasure, Measure, ExprSize, Size, SizesOf, SizesRecorded, TagsFrom;
      PureGrowthOne(representatives, Expr(Push(0), [], 0));
      match p
      case Var(g) =>
        VarRebuilt(representatives, g, b);
        BoundIsValue(representatives, b, g);
        id := b[g];
        AddsNothing(representatives, expressions, limit);
        LeafClass(expressions, b);
        VarSize(representatives, g, b);
      case Literal(w) =>
        LiteralMeasure(representatives, w, SizesOf(representatives, b));
        ValueList(representatives, []);
        ghost var m := Measure(representatives, Expr(Push(w), [], 0));
        id := FindAt(Push(w), [], 0, m);
        AddsWeaker(representatives, old(expressions), expressions, m, limit);
        LeafClass(expressions, b);
        PureFound(old(representatives), representatives, Push(w), [], id);
        LiteralRebuilt(representatives, w, b, id);
        LiteralMeasure(representatives, w, SizesOf(representatives, b));
      case Op0(op) =>
        ValueList(representatives, []);
        id := Apply(p, [], b, limit);
      case Op1(op, q) =>
        var x := RebuildChild(p, 0, b, limit);
        ghost var before, known := representatives, expressions;
        NodeReady(old(representatives), representatives, p, b);
        ValueList(representatives, [x]);
        id := Apply(p, [x], b, limit);
        BothGrow(old(representatives), before, representatives, old(expressions), known, expressions, limit);
      case Op2(op, q, s) =>
        var x := RebuildChild(p, 0, b, limit);
        ghost var first, known := representatives, expressions;
        NodeReady(old(representatives), representatives, p, b);
        var y := RebuildChild(p, 1, b, limit);
        BothGrow(old(representatives), first, representatives, old(expressions), known, expressions, limit);
        ghost var second, more := representatives, expressions;
        NodeReady(old(representatives), representatives, p, b);
        ChildGrows(first, second, known, more, q, b, x);
        ValueList(representatives, [x, y]);
        id := Apply(p, [x, y], b, limit);
        BothGrow(old(representatives), second, representatives, old(expressions), more, expressions, limit);
      case Op3(op, q, s, t) =>
        var x := RebuildChild(p, 0, b, limit);
        ghost var first, known := representatives, expressions;
        NodeReady(old(representatives), representatives, p, b);
        var y := RebuildChild(p, 1, b, limit);
        BothGrow(old(representatives), first, representatives, old(expressions), known, expressions, limit);
        ghost var second, more := representatives, expressions;
        NodeReady(old(representatives), representatives, p, b);
        ChildGrows(first, second, known, more, q, b, x);
        var z := RebuildChild(p, 2, b, limit);
        BothGrow(old(representatives), second, representatives, old(expressions), more, expressions, limit);
        ghost var third, most := representatives, expressions;
        NodeReady(old(representatives), representatives, p, b);
        ChildGrows(second, third, more, most, q, b, x);
        ChildGrows(second, third, more, most, s, b, y);
        ValueList(representatives, [x, y, z]);
        id := Apply(p, [x, y, z], b, limit);
        BothGrow(old(representatives), third, representatives, old(expressions), most, expressions, limit);
    }

    /** Builds the class of a part of a pattern. */
    method RebuildChild(p: Pattern, i: nat, b: Bindings, ghost limit: nat) returns (id: Id)
      requires Valid() && ConstantsBound(b, representatives) && VarsOf(p) <= b.Keys && WellBuilt(p) && i < |Children(p)|
      requires PatMeasure(p, SizesOf(representatives, b)) <= limit
      modifies this
      ensures Valid() && PureGrowth(old(representatives), representatives)
      ensures Rebuilt(representatives, Children(p)[i], b, id) && SizeBuilt(representatives, Children(p)[i], b, id)
      ensures old(Tidy(representatives, expressions) && BoundValues(b, representatives)) && AtMostTwo(Children(p)[i]) ==>
                Tidy(representatives, expressions) && IsValue(representatives, id)
      ensures AddsUpTo(representatives, old(expressions), expressions, limit) && ClassOf(expressions, Children(p)[i], b) == Some(id)
      decreases limit, 2, p, 1
    {
      hide AddsUpTo, OwnClasses, ClassOf, Tidy, Usable, IsValue, BoundValues, Means, Rebuilt, Recorded, ArityOk, NoMemory, WellFormed, PatMeasure, SizesOf, SizesRecorded, TagsFrom, SizeBuilt, WellBuilt, Children, VarsOf;
      TablePlainConstants(representatives, expressions);
      BoundSizesOk(representatives, b);
      ChildMeasure(p, i, SizesOf(representatives, b));
      WellBuiltChild(p, i);
      id := Rebuild(Children(p)[i], b, limit - 1);
      AddsWeaker(representatives, old(expressions), expressions, limit - 1, limit);
    }

    /** Looks up the item of a pattern node, applied to the classes of the node's children. */
    method Apply(p: Pattern, ids: seq<Id>, b: Bindings, ghost limit: nat) returns (id: Id)
      requires Valid() && ConstantsBound(b, representatives) && WellBuilt(p) && !p.Var? && !p.Literal?
      requires |ids| == |Children(p)| && forall i | 0 <= i < |ids| :: Rebuilt(representatives, Children(p)[i], b, ids[i])
      requires forall i | 0 <= i < |ids| :: SizeBuilt(representatives, Children(p)[i], b, ids[i])
      requires PatMeasure(p, SizesOf(representatives, b)) <= limit
      requires forall i | 0 <= i < |ids| :: ClassOf(expressions, Children(p)[i], b) == Some(ids[i])
      modifies this
      ensures Valid() && PureGrowth(old(representatives), representatives)
      ensures Rebuilt(representatives, p, b, id) && SizeBuilt(representatives, p, b, id)
      ensures old(Tidy(representatives, expressions) && Usable(representatives, ids)) ==>
                Tidy(representatives, expressions) && IsValue(representatives, id)
      ensures AddsUpTo(representatives, old(expressions), expressions, limit) && ClassOf(expressions, p, b) == Some(id)
      decreases limit, 2, p, 0
    {
      hide AddsUpTo, OwnClasses, ClassOf, Simplest, Sorted, RecordedAs, Tidy, Usable, IsValue, IsStoreItem, Means, Rebuilt, Recorded, ArityOk, IsMemoryItem, NoMemory, Found, Grown, WellBuilt, Arguments, Children, WellFormed, PatMeasure, Measure, SizesOf, ExprSize, Size, PatSize, SizesRecorded, TagsFrom;
      WellBuiltNode(p);
      forall i | 0 <= i < |ids|
        ensures ids[i] < |representatives|
      {
        RebuiltIn(representatives, Children(p)[i], b, ids[i]);
      }
      NodeMeasure(representatives, p, b, ids);
      ghost var m := Measure(representatives, Expr(Operation(p.instr), ids, 0));
      id := FindAt(Operation(p.instr), ids, 0, m);
      AddsWeaker(representatives, old(expressions), expressions, m, limit);
      AddsRemember(representatives, old(expressions), expressions, limit);
      NodeStays(old(expressions), expressions, p, b, ids, id);
      PureFound(old(representatives), representatives, Operation(p.instr), ids, id);
      forall i | 0 <= i < |ids|
        ensures Rebuilt(representatives, Children(p)[i], b, ids[i])
      {
        RebuiltGrows(old(representatives), representatives, Children(p)[i], b, ids[i]);
      }
      NodeRebuilt(representatives, p, b, ids, id);
      NodeSize(old(representatives), representatives, p, b, ids, id);
    }

    // ----- queries -----

    /** The constant the class is known to be, if there is one. */
    function KnownConstant(id: Id): (r: Option<Word>)
      requires Valid() && id < |representatives|
      reads this
      ensures r.Some? ==> AlwaysIs(representatives, id, r.value)
    {
      if representatives[id].item.Push? then
        ConstantIs(representatives, id);
        Some(representatives[id].item.data)
      else None
    }

    predicate KnownZero(id: Id)
      requires Valid() && id < |representatives|
      reads this
    {
      representatives[id].item == Push(0)
    }

    method KnownNonZero(id: Id) returns (r: bool)
      requires Valid() && id < |representatives|
      modifies this
      ensures Valid() && PureGrowth(old(representatives), representatives)
      ensures Remembers(old(expressions), expressions) && NoInputs(old(expressions), expressions)
      ensures r ==> AlwaysNonZero(representatives, id)
      ensures TestedNonZero(representatives, id, r)
      ensures old(Tidy(representatives, expressions) && IsValue(representatives, id)) ==> Tidy(representatives, expressions)
    {
      hide OwnClasses, Tidy, IsValue, Usable, IsStoreItem, Means, Recorded, ArityOk, NoMemory, ArgCount;
      TestArity();
      ValueList(representatives, [id]);
      TestsAreValues();
      var test := Find(Operation(ISZERO), [id], 0);
      PureFound(old(representatives), representatives, Operation(ISZERO), [id], test);
      r := KnownZero(test);
      assert ZeroTest(representatives, id, test, r);
      if r {
        ConstantIs(representatives, test);
        NonZeroTest(old(representatives), representatives, id, test);
      }
    }

    /** Whether the values of the two classes are different on every input, as far as known. */
    method KnownToBeDifferent(a: Id, b: Id) returns (r: bool)
      requires Valid() && a < |representatives| && b < |representatives|
      modifies this
      ensures Valid() && PureGrowth(old(representatives), representatives)
      ensures Remembers(old(expressions), expressions) && NoInputs(old(expressions), expressions)
      ensures r ==> AlwaysDifferent(representatives, a, b)
      ensures TestedDifferent(representatives, a, b, r)
      ensures old(Tidy(representatives, expressions) && IsValue(representatives, a) && IsValue(representatives, b)) ==>
                Tidy(representatives, expressions)
    {
      hide OwnClasses, Tidy, IsValue, Usable, IsStoreItem, Means, Recorded, ArityOk, NoMemory, ArgCount, AlwaysNonZero, AlwaysDifferent, Found, TestedNonZero;
      TestArity();
      ValueList(representatives, [a, b]);
      TestsAreValues();
      var diff := Find(Operation(SUB), [a, b], 0);
      PureFound(old(representatives), representatives, Operation(SUB), [a, b], diff);
      ghost var before := representatives;
      MeansShape(representatives, Operation(SUB), [a, b], diff);
      r := KnownNonZero(diff);
      PureGrowthTransitive(old(representatives), before, representatives);
      FoundStays(before, representatives, Operation(SUB), [a, b], diff);
      assert DifferenceTest(representatives, a, b, diff, r);
      if r {
        MeansGrows(before, representatives, Operation(SUB), [a, b], diff);
        DifferentTest(representatives, a, b, diff);
      }
    }

    /** Whether words stored at the two addresses never overlap, as far as known. */
    method KnownToBeDifferentBy32(a: Id, b: Id) returns (r: bool)
      requires Valid() && a < |representatives| && b < |representatives|
      modifies this
      ensures Valid() && PureGrowth(old(representatives), representatives)
      ensures Remembers(old(expressions), expressions) && NoInputs(old(expressions), expressions)
      ensures r ==> AlwaysApart(representatives, a, b)
      ensures TestedApart(representatives, a, b, r)
      ensures old(Tidy(representatives, expressions) && IsValue(representatives, a) && IsValue(representatives, b)) ==>
                Tidy(representatives, expressions)
    {
      hide OwnClasses, Tidy, IsValue, Usable, IsStoreItem, Means, Recorded, ArityOk, NoMemory, ArgCount, AlwaysIs, AlwaysApart;
      TestArity();
      ValueList(representatives, [a, b]);
      TestsAreValues();
      var diff := Find(Operation(SUB), [a, b], 0);
      PureFound(old(representatives), representatives, Operation(SUB), [a, b], diff);
      MeansShape(representatives, Operation(SUB), [a, b], diff);
      var v := KnownConstant(diff);
      r := v.Some? && Add(v.value, 31) > 62;
      assert DistanceTest(representatives, a, b, diff, r);
      if r {
        ApartTest(representatives, a, b, diff, v.value);
      }
    }
  }
}
