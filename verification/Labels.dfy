/** The machine with symbolic tags: a pushed tag is a label that can be moved, dropped and jumped to,
    and anything else done with it counts as stuck. Programs that only do this behave alike up to
    the names of tags in front of equal blocks. */
module Labels {
  import opened Words
  import opened Instructions
  import opened Items
  import opened Machine
  import opened Rewriting
  import opened Blocks

  datatype Value = Num(word: Word) | Label(tag: Word)

  datatype LabelStep =
    | Goes(stack: seq<Value>, world: World)
    | Jumps(tag: Word, stack: seq<Value>, world: World)
    | Halts(status: Status, output: seq<Octet>, stack: seq<Value>, world: World)
    | Sticks

  predicate Numbers(vs: seq<Value>) {
    forall i | 0 <= i < |vs| :: vs[i].Num?
  }

  function WordsOf(vs: seq<Value>): seq<Word>
    requires Numbers(vs)
  {
    seq(|vs|, i requires 0 <= i < |vs| => vs[i].word)
  }

  function Nums(ws: seq<Word>): seq<Value> {
    seq(|ws|, i requires 0 <= i < |ws| => Num(ws[i]))
  }

  function TopFirst(stack: seq<Value>, n: nat): seq<Value>
    requires n <= |stack|
  {
    seq(n, i requires 0 <= i < n => stack[|stack| - 1 - i])
  }

  function Below(stack: seq<Value>, n: nat): seq<Value>
    requires n <= |stack|
  {
    stack[..|stack| - n]
  }

  ghost function StepInstruction(env: Env, op: Opcode, stack: seq<Value>, w: World): LabelStep {
    var n := ArgCount(op);
    if !IsValidInstruction(op) || |stack| < n then Sticks
    else if IsDup(op) then Goes(stack + [stack[|stack| - n]], w)
    else if IsSwap(op) then
      Goes(stack[|stack| - 1 := stack[|stack| - n]][|stack| - n := stack[|stack| - 1]], w)
    else StepOperation(env, op, TopFirst(stack, n), Below(stack, n), w)
  }

  ghost function StepOperation(env: Env, op: Opcode, args: seq<Value>, below: seq<Value>, w: World): LabelStep {
    if op == POP then Goes(below, w)
    else if op == JUMP then
      if |args| == 1 && args[0].Label? then Jumps(args[0].tag, below, w) else Sticks
    else if op == JUMPI then
      if |args| != 2 || !args[1].Num? then Sticks
      else if args[1].word == 0 then Goes(below, w)
      else if args[0].Label? then Jumps(args[0].tag, below, w)
      else Sticks
    else if !Numbers(args) then Sticks
    else
      match ExecOperation(env, op, WordsOf(args), [], w)
      case Next(s, w') => Goes(below + Nums(s), w')
      case Halt(status, output, s, w') => Halts(status, output, below, w')
      case _ => Sticks
  }

  ghost function StepItem(env: Env, item: Item, stack: seq<Value>, w: World): LabelStep {
    match item
    case UndefinedItem(_) => Sticks
    case Tag(_) => Goes(stack, w)
    case Operation(op) => StepInstruction(env, op, stack, w)
    case PushTag(d) => Goes(stack + [if IsLocal(d) then Label(d) else Num(PushedValue(env, item))], w)
    case _ => Goes(stack + [Num(PushedValue(env, item))], w)
  }

  datatype LabelOutcome =
    | Finished(status: Status, output: seq<Octet>, stack: seq<Value>, world: World)
    | Stranded
    | Unfinished

  /** Runs the items `rest`, which hold no tags and nothing behind a terminator, inside the program. */
  ghost function RunLabels(env: Env, prog: seq<Item>, rest: seq<Item>, stack: seq<Value>, w: World, fuel: nat): LabelOutcome
    decreases fuel, |rest|
  {
    if rest == [] then Finished(Stopped, [], stack, w)
    else
      match StepItem(env, rest[0], stack, w)
      case Goes(s, w') => RunLabels(env, prog, rest[1..], s, w', fuel)
      case Halts(status, output, s, w') => Finished(status, output, s, w')
      case Sticks => Stranded
      case Jumps(tag, s, w') =>
        match Behind(prog, tag)
        case None => Stranded
        case Some(code) => if fuel == 0 then Unfinished else RunLabels(env, prog, Flatten(code), s, w', fuel - 1)
  }

  // ----- sameness up to a renaming of tags -----

  ghost predicate SameValue(k: Renaming, v: Value, v': Value) {
    v == v' || (v.Label? && v'.Label? && k(v.tag) == k(v'.tag))
  }

  ghost predicate SameValues(k: Renaming, s: seq<Value>, s': seq<Value>) {
    |s| == |s'| && forall i | 0 <= i < |s| :: SameValue(k, s[i], s'[i])
  }

  ghost predicate SameStepUpTo(k: Renaming, r: LabelStep, r': LabelStep) {
    match r
    case Goes(s, w) => r'.Goes? && SameValues(k, s, r'.stack) && w == r'.world
    case Jumps(t, s, w) => r'.Jumps? && k(t) == k(r'.tag) && SameValues(k, s, r'.stack) && w == r'.world
    case Halts(status, output, s, w) =>
      r'.Halts? && status == r'.status && output == r'.output && SameValues(k, s, r'.stack) && w == r'.world
    case Sticks => r'.Sticks?
  }

  /** The same status, output, storage and memory; the stacks differ in the names of tags at most. */
  ghost predicate SameOutcome(k: Renaming, r: LabelOutcome, r': LabelOutcome) {
    match r
    case Finished(status, output, s, w) =>
      r'.Finished? && status == r'.status && output == r'.output && SameValues(k, s, r'.stack) && w == r'.world
    case Stranded => r'.Stranded?
    case Unfinished => r'.Unfinished?
  }

  lemma SameParts(k: Renaming, s: seq<Value>, s': seq<Value>, n: nat)
    requires SameValues(k, s, s') && n <= |s|
    ensures SameValues(k, TopFirst(s, n), TopFirst(s', n)) && SameValues(k, Below(s, n), Below(s', n))
    ensures Numbers(TopFirst(s, n)) <==> Numbers(TopFirst(s', n))
    ensures Numbers(TopFirst(s, n)) ==> TopFirst(s, n) == TopFirst(s', n)
  {
    var a, b := TopFirst(s, n), TopFirst(s', n);
    forall i | 0 <= i < n
      ensures SameValue(k, a[i], b[i])
    {
      assert SameValue(k, s[|s| - 1 - i], s'[|s| - 1 - i]);
    }
    forall i | 0 <= i < |s| - n
      ensures SameValue(k, Below(s, n)[i], Below(s', n)[i])
    {
      assert SameValue(k, s[i], s'[i]);
    }
    if Numbers(a) {
      forall i | 0 <= i < n
        ensures a[i] == b[i]
      {
        assert SameValue(k, a[i], b[i]);
      }
    }
    if Numbers(b) {
      forall i | 0 <= i < n
        ensures a[i].Num?
      {
        assert SameValue(k, a[i], b[i]);
      }
    }
  }

  lemma SameAppend(k: Renaming, s: seq<Value>, s': seq<Value>, t: seq<Value>, t': seq<Value>)
    requires SameValues(k, s, s') && SameValues(k, t, t')
    ensures SameValues(k, s + t, s' + t')
  {
  }

  lemma StepOperationSame(env: Env, k: Renaming, op: Opcode, args: seq<Value>, args': seq<Value>, below: seq<Value>, below': seq<Value>, w: World)
    requires SameValues(k, args, args') && SameValues(k, below, below')
    requires Numbers(args) <==> Numbers(args')
    requires Numbers(args) ==> args == args'
    ensures SameStepUpTo(k, StepOperation(env, op, args, below, w), StepOperation(env, op, args', below', w))
  {
    hide ExecOperation;
    if op == JUMP && |args| == 1 {
      assert SameValue(k, args[0], args'[0]);
    } else if op == JUMPI && |args| == 2 {
      assert SameValue(k, args[0], args'[0]) && SameValue(k, args[1], args'[1]);
    } else if op != POP && op != JUMP && op != JUMPI && Numbers(args) {
      var r := ExecOperation(env, op, WordsOf(args), [], w);
      if r.Next? {
        SameAppend(k, below, below', Nums(r.stack), Nums(r.stack));
      }
    }
  }

  lemma StepInstructionSame(env: Env, k: Renaming, op: Opcode, s: seq<Value>, s': seq<Value>, w: World)
    requires SameValues(k, s, s')
    ensures SameStepUpTo(k, StepInstruction(env, op, s, w), StepInstruction(env, op, s', w))
  {
    hide StepOperation, ArgCount, IsValidInstruction;
    var n := ArgCount(op);
    if IsValidInstruction(op) && n <= |s| {
      if IsDup(op) {
        DupSwapArguments(op);
        assert SameValue(k, s[|s| - n], s'[|s| - n]);
      } else if IsSwap(op) {
        DupSwapArguments(op);
        assert SameValue(k, s[|s| - n], s'[|s| - n]) && SameValue(k, s[|s| - 1], s'[|s| - 1]);
      } else {
        SameParts(k, s, s', n);
        StepOperationSame(env, k, op, TopFirst(s, n), TopFirst(s', n), Below(s, n), Below(s', n), w);
      }
    }
  }

  lemma DupSwapArguments(op: Opcode)
    ensures IsDup(op) || IsSwap(op) ==> ArgCount(op) > 0
  {
  }

  /** Tags of the same name are both tags of this program, or the same. */
  ghost predicate LocalNames(k: Renaming) {
    forall t, u | k(t) == k(u) :: t == u || (IsLocal(t) && IsLocal(u))
  }

  lemma StepItemSame(env: Env, k: Renaming, item: Item, item': Item, s: seq<Value>, s': seq<Value>, w: World)
    requires LocalNames(k) && Renamed(k, item) == Renamed(k, item') && SameValues(k, s, s')
    ensures SameStepUpTo(k, StepItem(env, item, s, w), StepItem(env, item', s', w))
  {
    hide StepInstruction, IsLocal;
    match item
    case Operation(op) => StepInstructionSame(env, k, op, s, s', w);
    case UndefinedItem(_) =>
    case Tag(_) =>
    case _ =>
  }

  lemma CongruentLocal(items: seq<Item>, k: Renaming)
    requires Congruent(items, k)
    ensures LocalNames(k)
  {
    hide IsLocal, Behind, Flatten, SameUpTo;
    forall t, u | k(t) == k(u)
      ensures t == u || (IsLocal(t) && IsLocal(u))
    {
      assert CongruentAt(items, k, t, u);
    }
  }

  /** Where a jump leads in both programs. */
  lemma JumpSame(prog: seq<Item>, prog': seq<Item>, k: Renaming, t: Word, u: Word)
    requires Congruent(prog, k) && SameUpTo(k, prog, prog') && k(t) == k(u)
    ensures Behind(prog, t).Some? <==> Behind(prog', u).Some?
    ensures Behind(prog, t).Some? ==> SameUpTo(k, Flatten(Behind(prog, t).value), Flatten(Behind(prog', u).value))
  {
    hide SameUpTo, Flatten, Behind, IsLocal;
    assert CongruentAt(prog, k, t, u);
    BehindSame(k, prog, prog', u);
    if Behind(prog, t).Some? {
      var a, b, c := Behind(prog, t).value, Behind(prog, u).value, Behind(prog', u).value;
      FlattenSame(k, b, c);
      SameTransitive(k, Flatten(a), Flatten(b), Flatten(c));
    }
  }

  /** Lock step: both programs take the same steps, up to the names of tags. */
  lemma {:induction false} RunSame(env: Env, prog: seq<Item>, prog': seq<Item>, k: Renaming, rest: seq<Item>, rest': seq<Item>,
                                   s: seq<Value>, s': seq<Value>, w: World, fuel: nat)
    requires Congruent(prog, k) && SameUpTo(k, prog, prog') && SameUpTo(k, rest, rest') && SameValues(k, s, s')
    ensures SameOutcome(k, RunLabels(env, prog, rest, s, w, fuel), RunLabels(env, prog', rest', s', w, fuel))
    decreases fuel, |rest|
  {
    hide StepItem, Congruent, Flatten, Behind;
    if rest != [] {
      CongruentLocal(prog, k);
      assert Renamed(k, rest[0]) == Renamed(k, rest'[0]);
      StepItemSame(env, k, rest[0], rest'[0], s, s', w);
      var r, r' := StepItem(env, rest[0], s, w), StepItem(env, rest'[0], s', w);
      SuffixSame(k, rest, rest', 1);
      if r.Goes? {
        RunSame(env, prog, prog', k, rest[1..], rest'[1..], r.stack, r'.stack, r.world, fuel);
      } else if r.Jumps? {
        JumpSame(prog, prog', k, r.tag, r'.tag);
        if Behind(prog, r.tag).Some? && fuel > 0 {
          RunSame(env, prog, prog', k, Flatten(Behind(prog, r.tag).value), Flatten(Behind(prog', r'.tag).value), r.stack, r'.stack, r.world, fuel - 1);
        }
      }
    }
  }

  // ----- concrete machine -----

  function ToWord(env: Env, v: Value): Word {
    match v
    case Num(x) => x
    case Label(t) => env.address(t)
  }

  function Concrete(env: Env, vs: seq<Value>): seq<Word> {
    seq(|vs|, i requires 0 <= i < |vs| => ToWord(env, vs[i]))
  }

  ghost function ConcreteStep(env: Env, r: LabelStep): Step {
    match r
    case Goes(s, w) => Next(Concrete(env, s), w)
    case Jumps(t, s, w) => Jump(env.address(t), Concrete(env, s), w)
    case Halts(status, output, s, w) => Halt(status, output, Concrete(env, s), w)
    case Sticks => Fail
  }

  ghost function ConcreteOutcome(env: Env, r: LabelOutcome): Outcome {
    match r
    case Finished(status, output, s, w) => Done(status, output, Concrete(env, s), w)
    case Stranded => Stuck
    case Unfinished => OutOfFuel
  }

  ghost function OnTopOf(below: seq<Word>, r: Step): Step {
    match r
    case Next(s, w) => Next(below + s, w)
    case Jump(d, s, w) => Jump(d, below + s, w)
    case Halt(status, output, s, w) => Halt(status, output, below + s, w)
    case Fail => Fail
  }

  /** An instruction does not look below its arguments. */
  lemma ExecBelow(env: Env, op: Opcode, args: seq<Word>, below: seq<Word>, w: World)
    ensures ExecOperation(env, op, args, below, w) == OnTopOf(below, ExecOperation(env, op, args, [], w))
  {
    hide PureValue, HasSideEffects, RetCount, Load, Store, ReadBytes;
    assert below + [] == below;
  }

  lemma ConcreteParts(env: Env, stack: seq<Value>, n: nat)
    requires n <= |stack|
    ensures Args(Concrete(env, stack), n) == Concrete(env, TopFirst(stack, n))
    ensures Drop(Concrete(env, stack), n) == Concrete(env, Below(stack, n))
    ensures Numbers(TopFirst(stack, n)) ==> Concrete(env, TopFirst(stack, n)) == WordsOf(TopFirst(stack, n))
  {
  }

  lemma ConcreteAppend(env: Env, a: seq<Value>, b: seq<Value>)
    ensures Concrete(env, a + b) == Concrete(env, a) + Concrete(env, b)
  {
  }

  lemma ConcreteNums(env: Env, ws: seq<Word>)
    ensures Concrete(env, Nums(ws)) == ws
  {
  }

  lemma OperationConcrete(env: Env, op: Opcode, stack: seq<Value>, w: World)
    requires ArgCount(op) <= |stack|
    requires var n := ArgCount(op); !StepOperation(env, op, TopFirst(stack, n), Below(stack, n), w).Sticks?
    ensures var n := ArgCount(op);
            ExecOperation(env, op, Args(Concrete(env, stack), n), Drop(Concrete(env, stack), n), w) ==
            ConcreteStep(env, StepOperation(env, op, TopFirst(stack, n), Below(stack, n), w))
  {
    hide PureValue, HasSideEffects, RetCount, Load, Store, ReadBytes, ArgCount, Concrete, Args, Drop, TopFirst, Below, Numbers, WordsOf, Nums;
    var n := ArgCount(op);
    var args, below := TopFirst(stack, n), Below(stack, n);
    ConcreteParts(env, stack, n);
    if op == JUMP || op == JUMPI {
      ConcreteArgs(env, args);
    } else if op != POP {
      ExecBelow(env, op, Concrete(env, args), Concrete(env, below), w);
      var r := ExecOperation(env, op, WordsOf(args), [], w);
      HaltsEmpty(env, op, WordsOf(args), w);
      if r.Next? {
        ConcreteAppend(env, below, Nums(r.stack));
        ConcreteNums(env, r.stack);
      }
    }
  }

  lemma ConcreteArgs(env: Env, args: seq<Value>)
    ensures |args| > 0 ==> At(Concrete(env, args), 0) == ToWord(env, args[0])
    ensures |args| > 1 ==> At(Concrete(env, args), 1) == ToWord(env, args[1])
  {
  }

  lemma HaltsEmpty(env: Env, op: Opcode, args: seq<Word>, w: World)
    ensures var r := ExecOperation(env, op, args, [], w); r.Halt? ==> r.stack == []
  {
    hide PureValue, HasSideEffects, RetCount, Load, Store, ReadBytes;
  }

  /** Where the machine with labels is not stuck, the concrete machine does the same. */
  lemma StepConcrete(env: Env, item: Item, stack: seq<Value>, w: World)
    requires !StepItem(env, item, stack, w).Sticks?
    ensures ExecItem(env, item, Concrete(env, stack), w) == ConcreteStep(env, StepItem(env, item, stack, w))
  {
    hide ExecItem, StepOperation, ExecOperation, ArgCount, IsValidInstruction, IsLocal;
    match item
    case Operation(op) =>
      var n := ArgCount(op);
      DupSwapArguments(op);
      if IsDup(op) {
        TableFacts(op);
        ExecDup(env, op, Concrete(env, stack), w);
        ConcreteAppend(env, stack, [stack[|stack| - n]]);
      } else if IsSwap(op) {
        TableFacts(op);
        ExecSwap(env, op, Concrete(env, stack), w);
        SwapConcrete(env, stack, n - 1);
      } else {
        ExecPlain(env, op, Concrete(env, stack), w);
        OperationConcrete(env, op, stack, w);
      }
    case Tag(_) => ExecTag(env, item, Concrete(env, stack), w);
    case UndefinedItem(_) =>
    case PushTag(d) =>
      ExecPush(env, item, Concrete(env, stack), w);
      ConcreteAppend(env, stack, [if IsLocal(d) then Label(d) else Num(PushedValue(env, item))]);
    case _ =>
      ExecPush(env, item, Concrete(env, stack), w);
      ConcreteAppend(env, stack, [Num(PushedValue(env, item))]);
  }

  lemma SwapConcrete(env: Env, stack: seq<Value>, n: nat)
    requires n < |stack|
    ensures SwapTop(Concrete(env, stack), n) ==
            Concrete(env, stack[|stack| - 1 := stack[|stack| - 1 - n]][|stack| - 1 - n := stack[|stack| - 1]])
  {
  }

  /** Every tag of the program may be jumped to. */
  ghost predicate AllEntries(env: Env, prog: seq<Item>) {
    forall i | 0 <= i < |prog| && prog[i].Tag? :: env.entry(prog[i].data)
  }

  lemma EntriesOfRest(env: Env, prog: seq<Item>)
    requires prog != [] && AllEntries(env, prog) && DistinctTags(env, prog)
    ensures AllEntries(env, prog[1..]) && DistinctTags(env, prog[1..])
    ensures prog[0].Tag? ==> forall j | 0 <= j < |TagsOf(prog[1..])| :: env.address(TagsOf(prog[1..])[j]) != env.address(prog[0].data)
  {
    var rest := prog[1..];
    forall i | 0 <= i < |rest| && rest[i].Tag?
      ensures env.entry(rest[i].data)
    {
      assert prog[i + 1] == rest[i];
    }
    AddressesOfRest(env, if prog[0].Tag? then [prog[0].data] else [], TagsOf(rest), TagsOf(prog));
  }

  lemma AddressesOfRest(env: Env, head: seq<Word>, more: seq<Word>, tags: seq<Word>)
    requires tags == head + more
    requires forall i, j | 0 <= i < j < |tags| :: env.address(tags[i]) != env.address(tags[j])
    ensures forall i, j | 0 <= i < j < |more| :: env.address(more[i]) != env.address(more[j])
    ensures forall j | 0 <= j < |more| && head != [] :: env.address(more[j]) != env.address(head[0])
  {
    forall i, j | 0 <= i < j < |more|
      ensures env.address(more[i]) != env.address(more[j])
    {
      assert more[i] == tags[|head| + i] && more[j] == tags[|head| + j];
    }
    forall j | 0 <= j < |more| && head != []
      ensures env.address(more[j]) != env.address(head[0])
    {
      assert head[0] == tags[0] && more[j] == tags[|head| + j];
    }
  }

  lemma {:induction false} TargetBehind(env: Env, prog: seq<Item>, t: Word)
    requires AllEntries(env, prog) && DistinctTags(env, prog) && Behind(prog, t).Some?
    ensures Target(env, prog, env.address(t)) == Behind(prog, t)
  {
    hide DistinctTags, TagsOf;
    EntriesOfRest(env, prog);
    if prog[0] != Tag(t) {
      var rest := prog[1..];
      BehindIsTag(rest, t);
      var j :| 0 <= j < |TagsOf(rest)| && TagsOf(rest)[j] == t;
      TargetBehind(env, rest, t);
    }
  }

  lemma {:induction false} BehindIsTag(prog: seq<Item>, t: Word)
    requires Behind(prog, t).Some?
    ensures t in TagsOf(prog)
  {
    if prog[0] != Tag(t) {
      BehindIsTag(prog[1..], t);
    }
  }

  lemma {:induction false} RunConcrete(env: Env, prog: seq<Item>, rest: seq<Item>, stack: seq<Value>, w: World, fuel: nat)
    requires AllEntries(env, prog) && DistinctTags(env, prog)
    requires !RunLabels(env, prog, Flatten(rest), stack, w, fuel).Stranded?
    ensures Run(env, prog, rest, Concrete(env, stack), w, fuel) ==
            ConcreteOutcome(env, RunLabels(env, prog, Flatten(rest), stack, w, fuel))
    decreases fuel, |rest|
  {
    hide StepItem, ExecItem, AllEntries, DistinctTags, Behind, Concrete, AltersControlFlow, Target;
    if rest != [] {
      var item, flat := rest[0], Flatten(rest);
      if item.Tag? {
        ExecTag(env, item, Concrete(env, stack), w);
        RunConcrete(env, prog, rest[1..], stack, w, fuel);
      } else {
        assert flat[0] == item;
        var r := StepItem(env, item, stack, w);
        StepConcrete(env, item, stack, w);
        if r.Goes? {
          if IsTerminator(item) {
            ExecTerminator(env, item.instr, Concrete(env, stack), w);
            assert false;
          }
          assert flat[1..] == Flatten(rest[1..]);
          RunConcrete(env, prog, rest[1..], r.stack, r.world, fuel);
        } else if r.Jumps? {
          TargetBehind(env, prog, r.tag);
          if fuel > 0 {
            RunConcrete(env, prog, Behind(prog, r.tag).value, r.stack, r.world, fuel - 1);
          }
        }
      }
    }
  }

  // ----- the result -----

  /** The words are the same, or addresses of tags of the same name. */
  ghost predicate SameWord(env: Env, k: Renaming, x: Word, x': Word) {
    x == x' || exists t, u :: k(t) == k(u) && x == env.address(t) && x' == env.address(u)
  }

  ghost predicate SameEnd(env: Env, k: Renaming, r: Outcome, r': Outcome) {
    match r
    case Done(status, output, s, w) =>
      && r'.Done? && status == r'.status && output == r'.output && w == r'.world
      && |s| == |r'.stack| && forall i | 0 <= i < |s| :: SameWord(env, k, s[i], r'.stack[i])
    case Stuck => r'.Stuck?
    case OutOfFuel => r'.OutOfFuel?
  }

  /** A program that only moves, drops and jumps to pushed tags ends in the same way after its pushed
      tags have been replaced by tags in front of equal blocks. */
  lemma RenamedBehaves(env: Env, before: seq<Item>, after: seq<Item>, k: Renaming, stack: seq<Word>, w: World, fuel: nat)
    requires Congruent(before, k) && SameUpTo(k, before, after)
    requires AllEntries(env, before) && DistinctTags(env, before)
    requires !RunLabels(env, before, Flatten(before), Nums(stack), w, fuel).Stranded?
    ensures SameEnd(env, k, Run(env, before, before, stack, w, fuel), Run(env, after, after, stack, w, fuel))
  {
    hide RunLabels, Run, Congruent, AllEntries, DistinctTags, Flatten, SameUpTo;
    var s := Nums(stack);
    ConcreteNums(env, stack);
    RenamedTags(env, k, before, after);
    FlattenSame(k, before, after);
    RunSame(env, before, after, k, Flatten(before), Flatten(after), s, s, w, fuel);
    RunConcrete(env, before, before, s, w, fuel);
    RunConcrete(env, after, after, s, w, fuel);
    var r, r' := RunLabels(env, before, Flatten(before), s, w, fuel), RunLabels(env, after, Flatten(after), s, w, fuel);
    if r.Finished? {
      forall i | 0 <= i < |r.stack|
        ensures SameWord(env, k, Concrete(env, r.stack)[i], Concrete(env, r'.stack)[i])
      {
        assert SameValue(k, r.stack[i], r'.stack[i]);
      }
    }
  }

  /** The result for all environments and initial states. */
  ghost predicate BehavesUpTo(k: Renaming, before: seq<Item>, after: seq<Item>) {
    forall env, stack, w, fuel: nat
      | AllEntries(env, before) && DistinctTags(env, before) && !RunLabels(env, before, Flatten(before), Nums(stack), w, fuel).Stranded? ::
      SameEnd(env, k, Run(env, before, before, stack, w, fuel), Run(env, after, after, stack, w, fuel))
  }

  lemma AlwaysBehaves(before: seq<Item>, after: seq<Item>, k: Renaming)
    requires Congruent(before, k) && SameUpTo(k, before, after)
    ensures BehavesUpTo(k, before, after)
  {
    hide RunLabels, Run, Congruent, AllEntries, DistinctTags, Flatten, SameUpTo, SameEnd, Nums;
    forall env, stack, w, fuel: nat
      | AllEntries(env, before) && DistinctTags(env, before) && !RunLabels(env, before, Flatten(before), Nums(stack), w, fuel).Stranded?
      ensures SameEnd(env, k, Run(env, before, before, stack, w, fuel), Run(env, after, after, stack, w, fuel))
    {
      RenamedBehaves(env, before, after, k, stack, w, fuel);
    }
  }

  lemma RenamedTags(env: Env, k: Renaming, before: seq<Item>, after: seq<Item>)
    requires SameUpTo(k, before, after) && AllEntries(env, before) && DistinctTags(env, before)
    ensures AllEntries(env, after) && DistinctTags(env, after)
  {
    TagsOfSame(k, before, after);
    forall i | 0 <= i < |after| && after[i].Tag?
      ensures env.entry(after[i].data)
    {
      assert Renamed(k, before[i]) == Renamed(k, after[i]);
    }
  }

  lemma {:induction false} TagsOfSame(k: Renaming, s: seq<Item>, t: seq<Item>)
    requires SameUpTo(k, s, t)
    ensures TagsOf(s) == TagsOf(t)
  {
    if s != [] {
      assert Renamed(k, s[0]) == Renamed(k, t[0]);
      SuffixSame(k, s, t, 1);
      TagsOfSame(k, s[1..], t[1..]);
    }
  }
}
