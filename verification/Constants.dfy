/** Other representations of constants (libevmasm/ConstantOptimiser.cpp): computing them, or copying
    them from the data section. */
module Constants {
  import opened Wrappers
  import opened Words
  import opened Instructions
  import opened Items
  import opened Machine
  import opened MemoryLaws
  import opened Rewriting

  // ----- the tiny machine that checks representations -----

  /** One step of the machine that knows only MUL, EXP, ADD, SUB and NOT. */
  function TinyStep(item: Item, stack: seq<Word>): Option<seq<Word>> {
    match item
    case Push(d) => Some(stack + [d])
    case Operation(op) =>
      var n := |stack|;
      if n < ArgCount(op) then None
      else if op == NOT && n >= 1 then Some(stack[..n - 1] + [Not(stack[n - 1])])
      else if n < 2 then None
      else
        var x, y, below := stack[n - 1], stack[n - 2], stack[..n - 2];
        if op == MUL then Some(below + [Mul(x, y)])
        else if op == EXP then (if y > 0xff then None else Some(below + [Exp(x, y)]))
        else if op == ADD then Some(below + [Add(x, y)])
        else if op == SUB then Some(below + [Sub(x, y)])
        else None
    case _ => None
  }

  function TinyRun(routine: seq<Item>, stack: seq<Word>): Option<seq<Word>> {
    if routine == [] then Some(stack)
    else
      match TinyStep(routine[0], stack)
      case None => None
      case Some(s) => TinyRun(routine[1..], s)
  }

  lemma {:induction false} TinyConcat(a: seq<Item>, b: seq<Item>, stack: seq<Word>)
    ensures TinyRun(a + b, stack) == match TinyRun(a, stack) case None => None case Some(s) => TinyRun(b, s)
  {
    hide TinyStep;
    if a == [] {
      assert a + b == b;
    } else {
      assert (a + b)[0] == a[0] && (a + b)[1..] == a[1..] + b;
      var s := TinyStep(a[0], stack);
      if s.Some? {
        TinyConcat(a[1..], b, s.value);
      }
    }
  }

  /** The routine leaves exactly this value, whatever is below it. */
  ghost predicate Represents(routine: seq<Item>, value: Word) {
    forall stack :: TinyRun(routine, stack) == Some(stack + [value])
  }

  lemma LiteralRepresents(value: Word)
    ensures Represents([Push(value)], value)
  {
    forall stack
      ensures TinyRun([Push(value)], stack) == Some(stack + [value])
    {
      assert [Push(value)][1..] == [];
    }
  }

  /** Running one routine behind another. */
  lemma RepresentsThen(a: seq<Item>, v: Word, b: seq<Item>, stack: seq<Word>)
    requires Represents(a, v)
    ensures TinyRun(a + b, stack) == TinyRun(b, stack + [v])
  {
    hide TinyRun;
    TinyConcat(a, b, stack);
  }

  lemma TinyOne(item: Item, stack: seq<Word>)
    ensures TinyRun([item], stack) == TinyStep(item, stack)
  {
    hide TinyStep;
    assert [item][1..] == [];
  }

  lemma NotRepresents(routine: seq<Item>, value: Word)
    requires Represents(routine, Not(value))
    ensures Represents(routine + [Operation(NOT)], value)
  {
    hide TinyRun;
    forall stack
      ensures TinyRun(routine + [Operation(NOT)], stack) == Some(stack + [value])
    {
      RepresentsThen(routine, Not(value), [Operation(NOT)], stack);
      var s := stack + [Not(value)];
      TinyOne(Operation(NOT), s);
      assert s[..|s| - 1] == stack && Not(Not(value)) == value;
    }
  }

  function PowerItems(bits: Word): seq<Item> {
    [Push(bits), Push(2), Operation(EXP)]
  }

  lemma PowerRepresents(bits: Word)
    requires bits <= 255
    ensures Pow2(bits) < WORD_BASE && Represents(PowerItems(bits), Pow2(bits))
  {
    hide TinyRun, TinyStep;
    PowFits(bits);
    LiteralRepresents(bits);
    LiteralRepresents(2);
    var p: Word := Pow2(bits);
    forall stack: seq<Word>
      ensures TinyRun(PowerItems(bits), stack) == Some(stack + [p])
    {
      assert PowerItems(bits) == [Push(bits)] + ([Push(2)] + [Operation(EXP)]);
      RepresentsThen([Push(bits)], bits, [Push(2)] + [Operation(EXP)], stack);
      RepresentsThen([Push(2)], 2, [Operation(EXP)], stack + [bits]);
      TinyBinary(EXP, stack, bits, 2);
      ExpOfTwo(bits);
    }
  }

  lemma PowFits(bits: nat)
    requires bits <= 255
    ensures Pow2(bits) < WORD_BASE
  {
    Pow2Bits();
    Pow2Monotone(bits, WORD_BITS);
  }

  lemma ExpOfTwo(bits: Word)
    requires bits <= 255
    ensures Exp(2, bits) == Pow2(bits)
  {
    PowerOfTwo(bits);
    PowFits(bits);
  }

  /** Binary operations take the topmost value as their first argument. */
  lemma TinyBinary(op: Opcode, stack: seq<Word>, y: Word, x: Word)
    requires op == MUL || op == EXP || op == ADD || op == SUB
    requires op == EXP ==> y <= 0xff
    ensures TinyRun([Operation(op)], stack + [y] + [x]) ==
            Some(stack + [if op == MUL then Mul(x, y) else if op == EXP then Exp(x, y) else if op == ADD then Add(x, y) else Sub(x, y)])
  {
    hide TinyRun;
    var s := stack + [y] + [x];
    TinyOne(Operation(op), s);
    assert s[|s| - 1] == x && s[|s| - 2] == y && s[..|s| - 2] == stack;
  }

  /** The parts of a value: a multiple of a power of two and a small remainder, which may be negative. */
  datatype Split = Split(upper: int, lower: int)

  function SplitBits(value: Word, bits: nat): Split {
    var p := Pow2(bits);
    var upper, lower := value / p, value % p;
    if p - lower < lower then Split(upper + 1, lower - p) else Split(upper, lower)
  }

  lemma SplitFacts(value: Word, bits: nat)
    requires 8 < bits <= 255
    ensures var s := SplitBits(value, bits);
            && 0 <= s.upper && s.upper < WORD_BASE
            && value == s.upper * Pow2(bits) + s.lower
            && (s.upper != 0 && Abs(s.lower) < Pow2(bits) / 256 ==> s.upper < value && Abs(s.lower) < value)
  {
    var p := Pow2(bits);
    var upper, lower := value / p, value % p;
    var s := SplitBits(value, bits);
    assert value == upper * p + lower;
    DivBound(value, p);
    assert (upper + 1) * p == upper * p + p;
    SplitPower(bits);
    MulAtLeastBoth(s.upper, p);
    UpperSmall(value, p, upper);
  }

  lemma SplitPower(bits: nat)
    requires 8 < bits
    ensures Pow2(bits) >= 512
  {
    if bits == 9 {
      assert Pow2(9) == 512;
    } else {
      SplitPower(bits - 1);
    }
  }

  lemma MulAtLeastBoth(k: int, p: int)
    requires k >= 0 && p >= 512
    ensures k > 0 ==> k * p >= p && k * p >= 512 * k
  {
    if k > 0 {
      MulAtLeast(k, p);
      assert k * p == k * 512 + k * (p - 512);
      assert k * (p - 512) >= 0;
    }
  }

  lemma UpperSmall(value: Word, p: int, upper: int)
    requires p >= 512 && upper == value / p
    ensures upper + 1 < WORD_BASE
  {
    assert upper * p <= value by {
      assert value == upper * p + value % p;
    }
    if upper >= 1 {
      MulAtLeastBoth(upper, p);
    }
  }

  /** Putting the parts together again. */
  function Assemble(lower: seq<Item>, bits: Word, upper: seq<Item>, s: Split): seq<Item> {
    (if s.lower != 0 then lower else []) +
    PowerItems(bits) +
    (if s.upper != 1 then upper + [Operation(MUL)] else []) +
    (if s.lower > 0 then [Operation(ADD)] else if s.lower < 0 then [Operation(SUB)] else [])
  }

  lemma UpperRepresents(bits: Word, upper: seq<Item>, u: Word)
    requires bits <= 255 && (u != 1 ==> Represents(upper, u))
    ensures Represents(PowerItems(bits) + (if u != 1 then upper + [Operation(MUL)] else []), Mul(u, Pow2(bits)))
  {
    hide TinyRun, Represents, PowerItems;
    PowerRepresents(bits);
    if u == 1 {
      assert PowerItems(bits) + [] == PowerItems(bits);
      PowFits(bits);
    } else {
      MulRepresents(PowerItems(bits), Pow2(bits), upper, u);
    }
  }

  lemma MulRepresents(a: seq<Item>, x: Word, b: seq<Item>, y: Word)
    requires Represents(a, x) && Represents(b, y)
    ensures Represents(a + (b + [Operation(MUL)]), Mul(y, x))
  {
    hide TinyRun;
    forall stack
      ensures TinyRun(a + (b + [Operation(MUL)]), stack) == Some(stack + [Mul(y, x)])
    {
      RepresentsThen(a, x, b + [Operation(MUL)], stack);
      RepresentsThen(b, y, [Operation(MUL)], stack + [x]);
      TinyBinary(MUL, stack, x, y);
    }
  }

  lemma AddRepresents(a: seq<Item>, x: Word, b: seq<Item>, y: Word, op: Opcode)
    requires Represents(a, x) && Represents(b, y) && (op == ADD || op == SUB)
    ensures Represents(a + b + [Operation(op)], if op == ADD then Add(y, x) else Sub(y, x))
  {
    hide TinyRun;
    var v := if op == ADD then Add(y, x) else Sub(y, x);
    forall stack
      ensures TinyRun(a + b + [Operation(op)], stack) == Some(stack + [v])
    {
      assert a + b + [Operation(op)] == a + (b + [Operation(op)]);
      RepresentsThen(a, x, b + [Operation(op)], stack);
      RepresentsThen(b, y, [Operation(op)], stack + [x]);
      TinyBinary(op, stack, x, y);
    }
  }

  lemma AssembleRepresents(value: Word, bits: Word, lower: seq<Item>, upper: seq<Item>, s: Split)
    requires 8 < bits <= 255 && s == SplitBits(value, bits) && 0 <= s.upper < WORD_BASE && Abs(s.lower) < WORD_BASE
    requires s.lower != 0 ==> Represents(lower, Abs(s.lower))
    requires s.upper != 1 ==> Represents(upper, s.upper)
    ensures Represents(Assemble(lower, bits, upper, s), value)
  {
    hide TinyRun, Represents, PowerItems, SplitBits, Pow2;
    var main := PowerItems(bits) + (if s.upper != 1 then upper + [Operation(MUL)] else []);
    var p := Pow2(bits);
    UpperRepresents(bits, upper, s.upper);
    SplitFacts(value, bits);
    SplitSum(value, s.upper * p, s.lower);
    var v := Mul(s.upper, p);
    if s.lower == 0 {
      assert Assemble(lower, bits, upper, s) == main;
    } else if s.lower > 0 {
      assert Assemble(lower, bits, upper, s) == lower + main + [Operation(ADD)];
      AddRepresents(lower, s.lower, main, v, ADD);
    } else {
      assert Assemble(lower, bits, upper, s) == lower + main + [Operation(SUB)];
      AddRepresents(lower, -s.lower, main, v, SUB);
    }
  }

  lemma SplitSum(value: Word, product: int, lower: int)
    requires value == product + lower
    ensures lower == 0 ==> Wrap(product) == value
    ensures lower > 0 ==> Add(Wrap(product), lower) == value
    ensures lower < 0 ==> Sub(Wrap(product), -lower) == value
  {
    WrapAdd(product, lower);
    assert Wrap(value) == value;
  }

  // ----- the search -----

  /** There is a run of equal bits on both sides of this one. */
  predicate Gap(value: Word, bits: nat)
    requires bits >= 8
  {
    var detector := (value / Pow2(bits - 8)) % 0x200;
    detector == 0xff || detector == 0x100
  }

  /** The value is a multiple of this power of two, up to something much smaller. */
  predicate Splits(value: Word, bits: nat)
    requires 8 < bits <= 255
  {
    var s := SplitBits(value, bits);
    s.upper != 0 && Abs(s.lower) < Pow2(bits) / 256
  }

  /** The representation of a value: the cheapest of a push and of the splits at gaps, whose parts are
      represented in the same way; where two cost the same, a push comes first, then the higher bit. */
  function Representation(gas: seq<Item> -> int, value: Word): seq<Item>
    decreases value, 2
  {
    if value < 0x10000 then [Push(value)]
    else if BytesRequired(Not(value)) < BytesRequired(value) then
      NotSmaller(value);
      Representation(gas, Not(value)) + [Operation(NOT)]
    else Cheapest(gas, value, 8)
  }

  /** The same for the splits at the bits above the given one. */
  function Cheapest(gas: seq<Item> -> int, value: Word, bits: nat): seq<Item>
    requires 8 <= bits <= 255
    decreases value, 1, 255 - bits
  {
    if bits == 255 then [Push(value)]
    else
      var best := Cheapest(gas, value, bits + 1);
      if Gap(value, bits + 1) && Splits(value, bits + 1) && gas(SplitRoutine(gas, value, bits + 1)) < gas(best)
      then SplitRoutine(gas, value, bits + 1)
      else best
  }

  function SplitRoutine(gas: seq<Item> -> int, value: Word, bits: nat): seq<Item>
    requires 8 < bits <= 255 && Splits(value, bits)
    decreases value, 0
  {
    var s := SplitBits(value, bits);
    SplitFacts(value, bits);
    Assemble(if s.lower != 0 then Representation(gas, Abs(s.lower)) else [], bits,
             if s.upper != 1 then Representation(gas, s.upper) else [], s)
  }

  /** Nothing that is considered is cheaper, and what is chosen has been considered. */
  lemma {:induction false} CheapestIsLeast(gas: seq<Item> -> int, value: Word, bits: nat)
    requires 8 <= bits <= 255
    ensures gas(Cheapest(gas, value, bits)) <= gas([Push(value)])
    ensures forall b | bits < b <= 255 && Gap(value, b) && Splits(value, b) ::
              gas(Cheapest(gas, value, bits)) <= gas(SplitRoutine(gas, value, b))
    ensures Cheapest(gas, value, bits) == [Push(value)]
            || exists b :: bits < b <= 255 && Gap(value, b) && Splits(value, b) && Cheapest(gas, value, bits) == SplitRoutine(gas, value, b)
    decreases 255 - bits
  {
    hide Gap, Splits, SplitRoutine;
    if bits < 255 {
      CheapestIsLeast(gas, value, bits + 1);
    }
  }

  /** A power of two costs no more than computing it by EXP. */
  lemma PowersAreCheap(gas: seq<Item> -> int, k: nat)
    requires 16 <= k <= 255 && Pow2(k) < WORD_BASE && BytesRequired(Not(Pow2(k))) >= BytesRequired(Pow2(k))
    ensures gas(Representation(gas, Pow2(k))) <= gas([Push(k), Push(2), Operation(EXP)])
  {
    hide Pow2, Gap, Splits, SplitRoutine, Cheapest, BytesRequired;
    PowersSplit(gas, k);
    CheapestIsLeast(gas, Pow2(k), 8);
  }

  lemma PowersSplit(gas: seq<Item> -> int, k: nat)
    requires 16 <= k <= 255 && Pow2(k) < WORD_BASE
    ensures Pow2(k) >= 0x10000 && Gap(Pow2(k), k) && Splits(Pow2(k), k)
    ensures SplitRoutine(gas, Pow2(k), k) == [Push(k), Push(2), Operation(EXP)]
  {
    hide Pow2;
    PowerRatio(k);
    if k > 16 {
      Pow2Monotone(16, k);
    }
    assert Pow2(16) == 0x10000 by {
      PowerFour(0);
      PowerFour(4);
      PowerFour(8);
      PowerFour(12);
      PowerZero();
    }
    assert SplitBits(Pow2(k), k) == Split(1, 0);
    assert Gap(Pow2(k), k);
  }

  lemma PowerZero()
    ensures Pow2(0) == 1
  {
  }

  lemma PowerRatio(k: nat)
    requires 16 <= k
    ensures Pow2(k) / Pow2(k - 8) == 256
  {
    hide Pow2;
    PowerFour(k - 8);
    PowerFour(k - 4);
    DivModUnique(Pow2(k), Pow2(k - 8), 256, 0);
  }

  lemma PowerFour(k: nat)
    ensures Pow2(k + 4) == 16 * Pow2(k)
  {
    hide Pow2;
    PowerNext(k);
    PowerNext(k + 1);
    PowerNext(k + 2);
    PowerNext(k + 3);
  }

  lemma PowerNext(k: nat)
    ensures Pow2(k + 1) == 2 * Pow2(k)
  {
  }

  // ----- the search with its budget -----

  const SEARCH_BUDGET: nat := 10000

  /** What is found, and what is left of the budget. */
  function Search(gas: seq<Item> -> int, value: Word, steps: nat): (r: (seq<Item>, nat))
    ensures r.1 <= steps
    decreases value, 2, 0
  {
    if value < 0x10000 then ([Push(value)], steps)
    else if BytesRequired(Not(value)) < BytesRequired(value) then
      NotSmaller(value);
      var found := Search(gas, Not(value), steps);
      (found.0 + [Operation(NOT)], found.1)
    else SearchSplits(gas, value, 255, [Push(value)], steps)
  }

  /** The splits from this bit downwards, as long as the budget lasts. */
  function SearchSplits(gas: seq<Item> -> int, value: Word, bits: nat, best: seq<Item>, steps: nat): (r: (seq<Item>, nat))
    requires bits <= 255
    ensures r.1 <= steps
    decreases value, 1, bits
  {
    if bits <= 8 || steps == 0 then (best, steps)
    else if Gap(value, bits) && Splits(value, bits) then
      var found := SearchSplit(gas, value, bits, steps);
      SearchSplits(gas, value, bits - 1, if gas(found.0) < gas(best) then found.0 else best, if found.1 > 0 then found.1 - 1 else 0)
    else SearchSplits(gas, value, bits - 1, best, steps)
  }

  function SearchSplit(gas: seq<Item> -> int, value: Word, bits: nat, steps: nat): (r: (seq<Item>, nat))
    requires 8 < bits <= 255 && Splits(value, bits)
    ensures r.1 <= steps
    decreases value, 0, 0
  {
    var s := SplitBits(value, bits);
    SplitFacts(value, bits);
    var lower := if s.lower != 0 then Search(gas, Abs(s.lower), steps) else ([], steps);
    var upper := if s.upper != 1 then Search(gas, s.upper, lower.1) else ([], lower.1);
    (Assemble(lower.0, bits, upper.0, s), upper.1)
  }

  /** While the budget lasts, the search finds the representation. */
  lemma {:induction false} SearchFinds(gas: seq<Item> -> int, value: Word, steps: nat)
    ensures Search(gas, value, steps).1 > 0 ==> Search(gas, value, steps).0 == Representation(gas, value)
    decreases value, 2, 0
  {
    hide BytesRequired;
    if value >= 0x10000 {
      if BytesRequired(Not(value)) < BytesRequired(value) {
        NotSmaller(value);
        SearchFinds(gas, Not(value), steps);
      } else {
        SplitsFind(gas, value, 255, [Push(value)], steps);
      }
    }
  }

  lemma {:induction false} SplitsFind(gas: seq<Item> -> int, value: Word, bits: nat, best: seq<Item>, steps: nat)
    requires 8 <= bits <= 255 && best == Cheapest(gas, value, bits)
    ensures var r := SearchSplits(gas, value, bits, best, steps); r.1 > 0 ==> r.0 == Cheapest(gas, value, 8)
    decreases value, 1, bits
  {
    hide Gap, Splits, SplitRoutine, SearchSplit;
    if bits > 8 && steps > 0 {
      if Gap(value, bits) && Splits(value, bits) {
        var found := SearchSplit(gas, value, bits, steps);
        if found.1 > 0 {
          SplitFinds(gas, value, bits, steps);
          SplitsFind(gas, value, bits - 1, if gas(found.0) < gas(best) then found.0 else best, found.1 - 1);
        }
      } else {
        SplitsFind(gas, value, bits - 1, best, steps);
      }
    }
  }

  lemma {:induction false} SplitFinds(gas: seq<Item> -> int, value: Word, bits: nat, steps: nat)
    requires 8 < bits <= 255 && Splits(value, bits)
    ensures var r := SearchSplit(gas, value, bits, steps); r.1 > 0 ==> r.0 == SplitRoutine(gas, value, bits)
    decreases value, 0, 0
  {
    hide SplitBits, Pow2;
    var s := SplitBits(value, bits);
    SplitFacts(value, bits);
    if s.lower != 0 {
      SearchFinds(gas, Abs(s.lower), steps);
    }
    if s.upper != 1 {
      SearchFinds(gas, s.upper, if s.lower != 0 then Search(gas, Abs(s.lower), steps).1 else steps);
    }
  }

  class ComputeMethod {
    /** What is left of the budget for the search. */
    var maxSteps: nat
    /** The cost of a routine; the result is right for every cost. */
    const gas: seq<Item> -> int

    constructor (gas: seq<Item> -> int)
      ensures this.gas == gas && maxSteps == SEARCH_BUDGET
    {
      this.gas := gas;
      maxSteps := SEARCH_BUDGET;
    }

    /** Finds a routine that computes the value. */
    method FindRepresentation(value: Word) returns (routine: seq<Item>)
      modifies `maxSteps
      ensures Represents(routine, value)
      ensures maxSteps <= old(maxSteps)
      ensures BytesRequired(Not(value)) >= BytesRequired(value) ==> gas(routine) <= gas([Push(value)])
      ensures (routine, maxSteps) == Search(gas, value, old(maxSteps))
      decreases value
    {
      hide Represents, BytesRequired, SplitBits, Pow2, Gap, Splits, SearchSplit;
      LiteralRepresents(value);
      if value < 0x10000 {
        return [Push(value)];
      }
      if BytesRequired(Not(value)) < BytesRequired(value) {
        NotSmaller(value);
        var negated := FindRepresentation(Not(value));
        NotRepresents(negated, value);
        return negated + [Operation(NOT)];
      }
      routine := [Push(value)];
      var bestGas := gas(routine);
      var bits := 255;
      while bits > 8 && maxSteps > 0
        invariant 8 <= bits <= 255 && Represents(routine, value) && maxSteps <= old(maxSteps)
        invariant bestGas == gas(routine) && bestGas <= gas([Push(value)])
        invariant SearchSplits(gas, value, bits, routine, maxSteps) == SearchSplits(gas, value, 255, [Push(value)], old(maxSteps))
        decreases bits
      {
        if Gap(value, bits) {
          var candidate := TrySplit(value, bits);
          if candidate.Some? {
            if maxSteps > 0 {
              maxSteps := maxSteps - 1;
            }
            var newGas := gas(candidate.value);
            if newGas < bestGas {
              bestGas, routine := newGas, candidate.value;
            }
          }
        }
        bits := bits - 1;
      }
    }

    /** The routine for a split at this bit, unless the remainder is too large. */
    method TrySplit(value: Word, bits: nat) returns (r: Option<seq<Item>>)
      requires 8 < bits <= 255
      modifies `maxSteps
      ensures r.Some? ==> Represents(r.value, value)
      ensures r.Some? <==> Splits(value, bits)
      ensures r.Some? ==> (r.value, maxSteps) == SearchSplit(gas, value, bits, old(maxSteps))
      ensures r.None? ==> maxSteps == old(maxSteps)
      ensures maxSteps <= old(maxSteps)
      decreases value, 0
    {
      hide Represents, SplitBits, Pow2, SearchSplits;
      var s := SplitBits(value, bits);
      SplitFacts(value, bits);
      if s.upper == 0 || Abs(s.lower) >= Pow2(bits) / 256 {
        return None;
      }
      var lower, upper: seq<Item> := [], [];
      if s.lower != 0 {
        lower := FindRepresentation(Abs(s.lower));
      }
      if s.upper != 1 {
        upper := FindRepresentation(s.upper);
      }
      AssembleRepresents(value, bits, lower, upper, s);
      r := Some(Assemble(lower, bits, upper, s));
    }
  }

  /** A shorter complement is smaller. */
  lemma NotSmaller(value: Word)
    requires BytesRequired(Not(value)) < BytesRequired(value)
    ensures Not(value) < value
  {
    if value <= Not(value) {
      BytesRequiredMonotone(value, Not(value));
    }
  }

  /** Recomputes the value from a routine. */
  method CheckRepresentation(value: Word, routine: seq<Item>) returns (ok: bool)
    ensures ok <==> TinyRun(routine, []) == Some([value])
  {
    hide TinyStep;
    var stack: seq<Word> := [];
    var i := 0;
    assert routine[0..] == routine;
    while i < |routine|
      invariant 0 <= i <= |routine|
      invariant TinyRun(routine, []) == TinyRun(routine[i..], stack)
    {
      assert routine[i..][0] == routine[i] && routine[i..][1..] == routine[i + 1..];
      var next := TinyStep(routine[i], stack);
      if next.None? {
        return false;
      }
      stack := next.value;
      i := i + 1;
    }
    ok := stack == [value];
  }

  /** The check in the constructor of the search never fails. */
  method RepresentationOf(value: Word, gas: seq<Item> -> int) returns (routine: seq<Item>, checked: bool)
    ensures Represents(routine, value) && checked
    ensures routine == Search(gas, value, SEARCH_BUDGET).0
  {
    hide Search;
    var compute := new ComputeMethod(gas);
    routine := compute.FindRepresentation(value);
    checked := CheckRepresentation(value, routine);
    assert TinyRun(routine, []) == Some([] + [value]);
    assert [] + [value] == [value];
  }

  // ----- from the tiny machine to the real one -----

  lemma TinyStepIsExec(env: Env, item: Item, stack: seq<Word>, w: World)
    requires TinyStep(item, stack).Some?
    ensures !item.Tag? && ExecItem(env, item, stack, w) == Next(TinyStep(item, stack).value, w)
  {
    hide ExecItem, Add, Mul, Sub, Not, Exp;
    if item.Push? {
      ExecPush(env, item, stack, w);
    } else if item.instr == NOT {
      ExecUnary(env, NOT, stack, w);
    } else {
      ExecBinary(env, item.instr, stack, w);
    }
  }

  lemma {:induction false} TinyIsExec(env: Env, routine: seq<Item>, stack: seq<Word>, w: World)
    requires TinyRun(routine, stack).Some?
    ensures NoTags(routine) && Exec(env, routine, stack, w) == Next(TinyRun(routine, stack).value, w)
  {
    hide TinyStep, ExecItem;
    if routine != [] {
      TinyStepIsExec(env, routine[0], stack, w);
      TinyIsExec(env, routine[1..], TinyStep(routine[0], stack).value, w);
      assert forall i | 1 <= i < |routine| :: routine[i] == routine[1..][i - 1];
    }
  }

  /** The items push exactly this value and change nothing else. */
  ghost predicate Pushes(env: Env, routine: seq<Item>, value: Word) {
    NoTags(routine) && forall stack, w :: Exec(env, routine, stack, w) == Next(stack + [value], w)
  }

  lemma RepresentsPushes(env: Env, routine: seq<Item>, value: Word)
    requires Represents(routine, value)
    ensures Pushes(env, routine, value)
  {
    hide TinyRun, Exec;
    forall stack: seq<Word>, w
      ensures NoTags(routine) && Exec(env, routine, stack, w) == Next(stack + [value], w)
    {
      TinyIsExec(env, routine, stack, w);
    }
    var w: World :| true;
    TinyIsExec(env, routine, [], w);
  }

  // ----- copying from the data section -----

  function CopyRoutine(data: Word): seq<Item> {
    [Push(0), Operation(DUP1), Operation(MLOAD), Push(32), PushData(data), Operation(DUP4),
     Operation(CODECOPY), Operation(DUP2), Operation(MLOAD), Operation(SWAP2), Operation(MSTORE)]
  }

  /** The assembled code holds the 32 bytes of the value where `PushData(data)` points. */
  ghost predicate HoldsData(env: Env, data: Word, value: Word) {
    forall w :: env.effect(CODECOPY, [0, env.pushed(PushData(data)), 32], w).1 == w.(memory := WriteWord(w.memory, 0, value))
  }

  lemma ExecCodeCopy(env: Env, data: Word, value: Word, below: seq<Word>, w: World)
    requires HoldsData(env, data, value)
    ensures ExecItem(env, Operation(CODECOPY), below + [32, env.pushed(PushData(data)), 0], w) ==
            Next(below, w.(memory := WriteWord(w.memory, 0, value)))
  {
    hide ExecItem, ArgCount, IsDup, IsSwap, IsValidInstruction, Args, Drop, PureValue, HasSideEffects, RetCount, Load, Store, ReadBytes, WriteWord;
    hide HoldsData;
    CodeCopyFacts();
    var p := env.pushed(PushData(data));
    ExecPlain(env, CODECOPY, below + [32, p, 0], w);
    ThreeArguments(below, 32, p, 0);
    CopiedData(env, data, value, w);
  }

  lemma CopiedData(env: Env, data: Word, value: Word, w: World)
    requires HoldsData(env, data, value)
    ensures env.effect(CODECOPY, [0, env.pushed(PushData(data)), 32], w).1 == w.(memory := WriteWord(w.memory, 0, value))
  {
  }

  lemma CodeCopyFacts()
    ensures IsValidInstruction(CODECOPY) && !IsDup(CODECOPY) && !IsSwap(CODECOPY)
    ensures ArgCount(CODECOPY) == 3 && RetCount(CODECOPY) == 0 && HasSideEffects(CODECOPY)
  {
  }

  lemma ThreeArguments(below: seq<Word>, c: Word, b: Word, a: Word)
    ensures Args(below + [c, b, a], 3) == [a, b, c] && Drop(below + [c, b, a], 3) == below
  {
  }

  /** First half: back up memory and copy the data. */
  lemma CopyIn(env: Env, data: Word, value: Word, stack: seq<Word>, w: World)
    requires HoldsData(env, data, value)
    ensures Exec(env, CopyRoutine(data)[..7], stack, w) ==
            Next(stack + [0, ReadWord(w.memory, 0)], w.(memory := WriteWord(w.memory, 0, value)))
  {
    hide ExecItem, WriteWord, ReadWord, Exec, HoldsData;
    var a := ReadWord(w.memory, 0);
    var p := env.pushed(PushData(data));
    assert CopyRoutine(data)[..7] == [Push(0), Operation(DUP1), Operation(MLOAD)] + ([Push(32), PushData(data), Operation(DUP4)] + [Operation(CODECOPY)]);
    var s1: seq<Word> := stack + [0];
    var s2: seq<Word> := s1 + [0];
    var s3: seq<Word> := stack + [0, a];
    ExecPush(env, Push(0), stack, w);
    ExecDup(env, DUP1, s1, w);
    ExecLoad(env, MLOAD, s2, w);
    assert Drop(s2, 1) + [a] == s3;
    ExecThree(env, Push(0), Operation(DUP1), Operation(MLOAD), stack, w);
    assert Exec(env, [Push(0), Operation(DUP1), Operation(MLOAD)], stack, w) == Next(s3, w);
    var s4: seq<Word> := s3 + [32];
    var s5: seq<Word> := s4 + [p];
    ExecPush(env, Push(32), s3, w);
    ExecPush(env, PushData(data), s4, w);
    ExecDup(env, DUP4, s5, w);
    assert s5[|s5| - 4] == 0;
    ExecThree(env, Push(32), PushData(data), Operation(DUP4), s3, w);
    assert s5 + [0] == s3 + [32, p, 0];
    ExecCodeCopy(env, data, value, s3, w);
    ExecOne(env, Operation(CODECOPY), s5 + [0], w);
    ExecConcat(env, [Push(32), PushData(data), Operation(DUP4)], [Operation(CODECOPY)], s3, w);
    ExecConcat(env, [Push(0), Operation(DUP1), Operation(MLOAD)], [Push(32), PushData(data), Operation(DUP4)] + [Operation(CODECOPY)], stack, w);
  }

  /** Second half: fetch the value and restore memory. */
  lemma CopyOut(env: Env, data: Word, value: Word, stack: seq<Word>, w: World)
    ensures Exec(env, CopyRoutine(data)[7..], stack + [0, ReadWord(w.memory, 0)], w.(memory := WriteWord(w.memory, 0, value))) ==
            Next(stack + [value], w)
  {
    hide ExecItem, Exec, WriteWord, ReadWord, Drop, SwapTop;
    var a := ReadWord(w.memory, 0);
    var w' := w.(memory := WriteWord(w.memory, 0, value));
    assert CopyRoutine(data)[7..] == [Operation(DUP2), Operation(MLOAD)] + [Operation(SWAP2), Operation(MSTORE)];
    ReadBack(w.memory, 0, value);
    Restored(w.memory, value);
    var s3: seq<Word> := stack + [0, a];
    var s4: seq<Word> := s3 + [0];
    var s5: seq<Word> := s3 + [value];
    var s6: seq<Word> := stack + [value, a, 0];
    ExecDup(env, DUP2, s3, w');
    ExecLoad(env, MLOAD, s4, w');
    CopyOutStacks(stack, a, value);
    ExecTwo(env, Operation(DUP2), Operation(MLOAD), s3, w');
    ExecSwap(env, SWAP2, s5, w');
    ExecStore(env, MSTORE, s6, w');
    ExecTwo(env, Operation(SWAP2), Operation(MSTORE), s5, w');
    ExecConcat(env, [Operation(DUP2), Operation(MLOAD)], [Operation(SWAP2), Operation(MSTORE)], s3, w');
  }

  lemma CopyOutStacks(stack: seq<Word>, a: Word, value: Word)
    ensures Drop(stack + [0, a] + [0], 1) == stack + [0, a]
    ensures SwapTop(stack + [0, a] + [value], 2) == stack + [value, a, 0]
    ensures Drop(stack + [value, a, 0], 2) == stack + [value]
  {
  }

  lemma Restored(m: Memory, value: Word)
    ensures WriteWord(WriteWord(m, 0, value), 0, ReadWord(m, 0)) == m
  {
    WriteSame(m, 0);
    hide ReadWord, ByteOf;
    assert WriteWord(WriteWord(m, 0, value), 0, ReadWord(m, 0)) == WriteWord(m, 0, ReadWord(m, 0));
  }

  /** The copy routine leaves the value on the stack and memory as it was. */
  lemma CopyPushes(env: Env, data: Word, value: Word)
    requires HoldsData(env, data, value)
    ensures Pushes(env, CopyRoutine(data), value)
  {
    hide Exec, HoldsData, WriteWord, ReadWord;
    forall stack: seq<Word>, w
      ensures Exec(env, CopyRoutine(data), stack, w) == Next(stack + [value], w)
    {
      var r := CopyRoutine(data);
      assert r == r[..7] + r[7..];
      ExecConcat(env, r[..7], r[7..], stack, w);
      CopyIn(env, data, value, stack, w);
      CopyOut(env, data, value, stack, w);
    }
  }

  // ----- replacing constants -----

  function PieceFor(item: Item, replacements: map<Word, seq<Item>>): Piece {
    Piece([item], if item.Push? && item.data in replacements then replacements[item.data] else [item])
  }

  function PiecesFor(items: seq<Item>, replacements: map<Word, seq<Item>>): seq<Piece> {
    seq(|items|, i requires 0 <= i < |items| => PieceFor(items[i], replacements))
  }

  /** Replaces every listed constant by its code. */
  method ReplaceConstants(items: seq<Item>, replacements: map<Word, seq<Item>>) returns (replaced: seq<Item>)
    ensures replaced == After(PiecesFor(items, replacements))
    ensures Before(PiecesFor(items, replacements)) == items
  {
    replaced := [];
    var i := 0;
    while i < |items|
      invariant 0 <= i <= |items|
      invariant replaced == After(PiecesFor(items[..i], replacements))
      invariant Before(PiecesFor(items[..i], replacements)) == items[..i]
    {
      assert PiecesFor(items[..i + 1], replacements) == PiecesFor(items[..i], replacements) + [PieceFor(items[i], replacements)];
      PiecesAppend(PiecesFor(items[..i], replacements), PieceFor(items[i], replacements));
      assert items[..i + 1] == items[..i] + [items[i]];
      if items[i].Push? && items[i].data in replacements {
        replaced := replaced + replacements[items[i].data];
      } else {
        replaced := replaced + [items[i]];
      }
      i := i + 1;
    }
    assert items[..i] == items;
  }

  lemma PushesReplaces(env: Env, routine: seq<Item>, value: Word)
    requires Pushes(env, routine, value)
    ensures Replaces(env, Piece([Push(value)], routine))
  {
    hide ExecItem, Exec;
    forall stack, w
      ensures SameStep(env, Piece([Push(value)], routine), stack, w)
    {
      ExecOne(env, Push(value), stack, w);
      ExecPush(env, Push(value), stack, w);
    }
  }

  lemma ReplacementCorrect(env: Env, items: seq<Item>, replacements: map<Word, seq<Item>>)
    requires forall v | v in replacements :: Pushes(env, replacements[v], v)
    requires DistinctTags(env, items) && Before(PiecesFor(items, replacements)) == items
    ensures SameBehaviour(env, items, After(PiecesFor(items, replacements)))
    ensures TagsOf(After(PiecesFor(items, replacements))) == TagsOf(items)
  {
    hide Pushes, SameBehaviour, DistinctTags, Replaces;
    var ps := PiecesFor(items, replacements);
    forall i | 0 <= i < |ps|
      ensures Replaces(env, ps[i])
    {
      var item := items[i];
      if item.Push? && item.data in replacements {
        PushesReplaces(env, replacements[item.data], item.data);
      } else {
        KeptItem(env, item);
      }
    }
    PiecewiseCorrect(env, ps);
  }

  // ----- choosing a representation -----

  /** Costs of the three ways to push a value that occurs a number of times: literally, from the
      data section, by a routine. */
  datatype Costs = Costs(literal: (Word, nat) -> int, copy: (Word, nat) -> int, compute: (seq<Item>, nat) -> int)

  /** How often each constant is pushed. */
  method CountPushes(items: seq<Item>) returns (pushes: map<Word, nat>)
    ensures forall v: Word :: v in pushes <==> Push(v) in items
    ensures forall v | v in pushes :: pushes[v] == multiset(items)[Push(v)]
  {
    pushes := map[];
    var i := 0;
    while i < |items|
      invariant 0 <= i <= |items|
      invariant forall v: Word :: v in pushes <==> Push(v) in items[..i]
      invariant forall v | v in pushes :: pushes[v] == multiset(items[..i])[Push(v)]
    {
      assert items[..i + 1] == items[..i] + [items[i]];
      if items[i].Push? {
        var v := items[i].data;
        assert v !in pushes ==> multiset(items[..i])[Push(v)] == 0;
        pushes := pushes[v := if v in pushes then pushes[v] + 1 else 1];
      }
      i := i + 1;
    }
    assert items[..i] == items;
  }

  /** A replacement is either a routine that computes the value or a copy of stored data. */
  ghost predicate Acceptable(value: Word, code: seq<Item>, key: Word -> Word, data: set<Word>) {
    Represents(code, value) || (value in data && code == CopyRoutine(key(value)))
  }

  lemma AcceptablePushes(env: Env, value: Word, code: seq<Item>, key: Word -> Word, data: set<Word>)
    requires Acceptable(value, code, key, data) && DataPlaced(env, key, data)
    ensures Pushes(env, code, value)
  {
    hide Represents, HoldsData, Pushes;
    if Represents(code, value) {
      RepresentsPushes(env, code, value);
    } else {
      CopyPushes(env, key(value), value);
    }
  }

  /** Everything that was added to the data section is found there at run time. */
  ghost predicate DataPlaced(env: Env, key: Word -> Word, data: set<Word>) {
    forall v | v in data :: HoldsData(env, key(v), v)
  }

  /** The routine that is found for a value that is pushed a number of times. */
  function RoutineFor(value: Word, count: nat, costs: Costs): seq<Item> {
    Search(r => costs.compute(r, count), value, SEARCH_BUDGET).0
  }

  /** The decision for one constant: what replaces it, and whether it goes to the data section. */
  predicate Decided(value: Word, count: nat, costs: Costs, key: Word -> Word, code: Option<seq<Item>>, copied: bool) {
    var literal, copy, routine := costs.literal(value, count), costs.copy(value, count), RoutineFor(value, count, costs);
    var compute := costs.compute(routine, count);
    && (copied <==> copy < literal && copy < compute)
    && code == if copied then Some(CopyRoutine(key(value))) else if compute < literal then Some(routine) else None
  }

  /** The cheapest replacement of one constant, if there is a cheaper one than pushing it. */
  method ChooseMethod(value: Word, count: nat, costs: Costs, key: Word -> Word)
    returns (code: Option<seq<Item>>, copied: bool)
    ensures Decided(value, count, costs, key, code, copied)
    ensures code.Some? && !copied ==> Represents(code.value, value)
    ensures copied ==> code == Some(CopyRoutine(key(value)))
  {
    hide Represents, Search;
    var computed, checked := RepresentationOf(value, r => costs.compute(r, count));
    var literalGas, copyGas, computeGas := costs.literal(value, count), costs.copy(value, count), costs.compute(computed, count);
    if copyGas < literalGas && copyGas < computeGas {
      return Some(CopyRoutine(key(value))), true;
    } else if computeGas < literalGas && computeGas <= copyGas {
      return Some(computed), false;
    }
    return None, false;
  }

  /** The decision for a constant of the program. */
  predicate DecidedIn(v: Word, items: seq<Item>, costs: Costs, key: Word -> Word, chosen: map<Word, seq<Item>>, data: set<Word>) {
    Decided(v, multiset(items)[Push(v)], costs, key, if v in chosen then Some(chosen[v]) else None, v in data)
  }

  /** The values added to the data section and the rewritten program, which behaves like the
      original one wherever that data is in place. `key` names a value in the data section. */
  method OptimiseConstants(items: seq<Item>, costs: Costs, key: Word -> Word)
    returns (optimised: seq<Item>, data: set<Word>, optimisations: nat, ghost chosen: map<Word, seq<Item>>)
    ensures forall env | DistinctTags(env, items) && DataPlaced(env, key, data) ::
              SameBehaviour(env, items, optimised) && TagsOf(optimised) == TagsOf(items)
    ensures forall v | v in data :: v >= 0x100 && Push(v) in items
    ensures optimised == After(PiecesFor(items, chosen)) && optimisations == |chosen|
    ensures forall v | v in chosen || v in data :: v >= 0x100 && Push(v) in items
    ensures forall v: Word | v >= 0x100 && Push(v) in items :: DecidedIn(v, items, costs, key, chosen, data)
    ensures optimisations == 0 ==> optimised == items
  {
    hide Acceptable, SameBehaviour, DistinctTags, DataPlaced, Represents, TagsOf, Decided;
    var pushes := CountPushes(items);
    var replacements: map<Word, seq<Item>> := map[];
    data := {};
    var left := pushes.Keys;
    while left != {}
      invariant left <= pushes.Keys && replacements.Keys !! left
      invariant forall v | v in replacements :: Acceptable(v, replacements[v], key, data)
      invariant forall v | v in data || v in replacements :: v >= 0x100 && Push(v) in items
      invariant data !! left
      invariant forall v | v in pushes && v !in left && v >= 0x100 :: DecidedIn(v, items, costs, key, replacements, data)
      decreases |left|
    {
      NonEmptyWords(left);
      var v :| v in left;
      left := left - {v};
      if v >= 0x100 {
        var code, copied := ChooseMethod(v, pushes[v], costs, key);
        if code.Some? {
          ghost var before := data;
          if copied {
            data := data + {v};
          }
          AcceptableMore(v, code.value, key, replacements, before, data);
          replacements := replacements[v := code.value];
        }
      }
    }
    optimisations, chosen := |replacements|, replacements;
    optimised := ReplaceConstants(items, replacements);
    if optimisations == 0 {
      assert replacements == map[];
      NothingReplaced(items);
    }
    forall env | DistinctTags(env, items) && DataPlaced(env, key, data)
      ensures SameBehaviour(env, items, optimised) && TagsOf(optimised) == TagsOf(items)
    {
      hide Pushes;
      forall v | v in replacements
        ensures Pushes(env, replacements[v], v)
      {
        AcceptablePushes(env, v, replacements[v], key, data);
      }
      ReplacementCorrect(env, items, replacements);
    }
  }

  lemma NonEmptyWords(s: set<Word>)
    ensures s == {} || exists v :: v in s
  {
    if forall v :: v !in s {
      assert s == {};
    }
  }

  lemma {:induction false} NothingReplaced(items: seq<Item>)
    ensures After(PiecesFor(items, map[])) == items
  {
    if items != [] {
      NothingReplaced(items[1..]);
      assert PiecesFor(items, map[])[1..] == PiecesFor(items[1..], map[]);
    }
  }

  lemma AcceptableMore(v: Word, code: seq<Item>, key: Word -> Word, replacements: map<Word, seq<Item>>, data: set<Word>, more: set<Word>)
    requires forall u | u in replacements :: Acceptable(u, replacements[u], key, data)
    requires data <= more
    requires Represents(code, v) || (v in more && code == CopyRoutine(key(v)))
    ensures Acceptable(v, code, key, more)
    ensures forall u | u in replacements :: Acceptable(u, replacements[u], key, more)
  {
    hide Represents;
  }
}
