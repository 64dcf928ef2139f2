/** FREEGAS lets the contract pay the fee of the transaction. The instruction table lists it without
    arguments, results and side effects (libevmasm/Instruction.cpp:220), so that common subexpression
    elimination drops it. This module says what a program loses that way. */
module FreeGas {
  import opened Words
  import opened Instructions
  import opened Items
  import opened Machine
  import opened Rewriting

  const CHARGE: Item := Operation(FREEGAS)

  predicate NoFreeGas(items: seq<Item>) {
    forall i | 0 <= i < |items| :: items[i] != CHARGE
  }

  function Lasting(item: Item): seq<Item> {
    if item == CHARGE then [] else [item]
  }

  function WithoutFreeGas(items: seq<Item>): seq<Item> {
    if items == [] then [] else Lasting(items[0]) + WithoutFreeGas(items[1..])
  }

  lemma {:induction false} WithoutConcat(a: seq<Item>, b: seq<Item>)
    ensures WithoutFreeGas(a + b) == WithoutFreeGas(a) + WithoutFreeGas(b)
  {
    if a == [] {
      assert a + b == b;
    } else {
      assert (a + b)[0] == a[0] && (a + b)[1..] == a[1..] + b;
      WithoutConcat(a[1..], b);
    }
  }

  lemma WithoutOne(item: Item)
    ensures WithoutFreeGas([item]) == Lasting(item)
  {
    assert [item][1..] == [];
  }

  lemma {:induction false} WithoutIsClean(items: seq<Item>)
    ensures NoFreeGas(WithoutFreeGas(items))
    ensures WithoutFreeGas(items) == items <==> NoFreeGas(items)
    ensures |WithoutFreeGas(items)| <= |items|
  {
    if items != [] {
      var rest := items[1..];
      WithoutIsClean(rest);
      assert items == [items[0]] + rest;
      if NoFreeGas(items) {
        assert forall i | 0 <= i < |rest| :: rest[i] == items[i + 1];
      }
    }
  }

  lemma {:induction false} WithoutNoTags(items: seq<Item>)
    requires NoTags(items)
    ensures NoTags(WithoutFreeGas(items))
  {
    if items != [] {
      var rest := items[1..];
      assert forall i | 0 <= i < |rest| :: rest[i] == items[i + 1];
      WithoutNoTags(rest);
    }
  }

  /** A replacement keeps the tags of a piece without FREEGAS if it keeps those of the piece. */
  lemma WithoutTagsKept(before: seq<Item>, after: seq<Item>)
    requires TagsKept(Piece(before, after))
    ensures TagsKept(Piece(WithoutFreeGas(before), after))
  {
    if NoTags(before) && NoTags(after) {
      WithoutNoTags(before);
    } else {
      var front, last := before[..|before| - 1], LastItem(before);
      assert before == front + [last];
      WithoutConcat(front, [last]);
      WithoutOne(last);
      WithoutNoTags(front);
      var shorter := WithoutFreeGas(before);
      assert shorter[..|shorter| - 1] == WithoutFreeGas(front);
    }
  }

  /** Tags, pushed tags and FREEGAS are not made up. */
  predicate NothingMadeUp(before: seq<Item>, after: seq<Item>) {
    forall x | x in after && (x.Tag? || x.PushTag? || x == CHARGE) :: x in before
  }

  /** Some occurrences of FREEGAS are gone, and nothing else. */
  predicate Sheds(before: seq<Item>, after: seq<Item>) {
    if before == [] then after == []
    else
      || (after != [] && after[0] == before[0] && Sheds(before[1..], after[1..]))
      || (before[0] == CHARGE && Sheds(before[1..], after))
  }

  lemma {:induction false} ShedsSelf(items: seq<Item>)
    ensures Sheds(items, items)
  {
    if items != [] {
      ShedsSelf(items[1..]);
    }
  }

  lemma {:induction false} ShedsAll(items: seq<Item>)
    ensures Sheds(items, WithoutFreeGas(items))
  {
    if items != [] {
      ShedsAll(items[1..]);
      if items[0] != CHARGE {
        assert WithoutFreeGas(items) == [items[0]] + WithoutFreeGas(items[1..]);
        assert WithoutFreeGas(items)[1..] == WithoutFreeGas(items[1..]);
      } else {
        assert [] + WithoutFreeGas(items[1..]) == WithoutFreeGas(items[1..]);
      }
    }
  }

  lemma {:induction false} ShedsConcat(a: seq<Item>, a': seq<Item>, b: seq<Item>, b': seq<Item>)
    requires Sheds(a, a') && Sheds(b, b')
    ensures Sheds(a + b, a' + b')
  {
    if a == [] {
      assert a + b == b && a' + b' == b';
    } else {
      assert (a + b)[0] == a[0] && (a + b)[1..] == a[1..] + b;
      if a' != [] && a'[0] == a[0] && Sheds(a[1..], a'[1..]) {
        assert (a' + b')[0] == a'[0] && (a' + b')[1..] == a'[1..] + b';
        ShedsConcat(a[1..], a'[1..], b, b');
      } else {
        ShedsConcat(a[1..], a', b, b');
      }
    }
  }

  lemma {:induction false} ShedsNothing(before: seq<Item>, after: seq<Item>)
    requires Sheds(before, after) && NoFreeGas(before)
    ensures after == before
  {
    if before != [] {
      assert before == [before[0]] + before[1..] && after == [after[0]] + after[1..];
      assert forall i | 0 <= i < |before[1..]| :: before[1..][i] == before[i + 1];
      ShedsNothing(before[1..], after[1..]);
    }
  }

  lemma {:induction false} ShedsTags(before: seq<Item>, after: seq<Item>)
    requires Sheds(before, after)
    ensures TagsOf(after) == TagsOf(before)
  {
    if before != [] {
      if after != [] && after[0] == before[0] && Sheds(before[1..], after[1..]) {
        ShedsTags(before[1..], after[1..]);
      } else {
        ShedsTags(before[1..], after);
      }
    }
  }

  // ----- environments in which nothing but the charge shows -----

  ghost function Iterated(charge: int -> int, times: nat, outside: int): int {
    if times == 0 then outside else charge(Iterated(charge, times - 1, outside))
  }

  /** The world after the contract was charged so many times. */
  ghost function Charged(charge: int -> int, times: nat, w: World): World {
    w.(outside := Iterated(charge, times, w.outside))
  }

  /** FREEGAS changes nothing but the outside, and no other instruction notices: it answers the same
      and does the same whether or not the contract was charged before. */
  ghost predicate Unnoticed(env: Env, charge: int -> int) {
    && (forall w :: env.effect(FREEGAS, [], w).1 == Charged(charge, 1, w))
    && (forall op, args, outside :: env.query(op, args, charge(outside)) == env.query(op, args, outside))
    && (forall op, args, w | op != FREEGAS :: SameEffect(env, charge, op, args, w))
  }

  ghost predicate SameEffect(env: Env, charge: int -> int, op: Opcode, args: seq<Word>, w: World) {
    var r := env.effect(op, args, w);
    env.effect(op, args, Charged(charge, 1, w)) == (r.0, Charged(charge, 1, r.1))
  }

  ghost function ChargedStep(charge: int -> int, times: nat, r: Step): Step {
    match r
    case Next(s, w) => Next(s, Charged(charge, times, w))
    case Jump(dest, s, w) => Jump(dest, s, Charged(charge, times, w))
    case Halt(status, output, s, w) => Halt(status, output, s, Charged(charge, times, w))
    case Fail => Fail
  }

  ghost function ChargedOutcome(charge: int -> int, times: nat, o: Outcome): Outcome {
    match o
    case Done(status, output, s, w) => Done(status, output, s, Charged(charge, times, w))
    case Stuck => Stuck
    case OutOfFuel => OutOfFuel
  }

  lemma ChargeShape()
    ensures IsValidInstruction(FREEGAS) && ArgCount(FREEGAS) == 0 && RetCount(FREEGAS) == 0 && !HasSideEffects(FREEGAS)
  {
  }

  lemma ExecCharge(env: Env, stack: seq<Word>, w: World)
    ensures ExecItem(env, CHARGE, stack, w) == Next(stack, env.effect(FREEGAS, [], w).1)
  {
    hide ExecItem, PureValue, Load, Store, ReadBytes;
    ExecPlain(env, FREEGAS, stack, w);
    assert Drop(stack, 0) == stack && Args(stack, 0) == [];
  }

  lemma ChargedOnce(env: Env, charge: int -> int, item: Item, stack: seq<Word>, w: World)
    requires Unnoticed(env, charge) && item != CHARGE
    ensures ExecItem(env, item, stack, Charged(charge, 1, w)) == ChargedStep(charge, 1, ExecItem(env, item, stack, w))
  {
    hide ExecOperation, ArgCount, IsValidInstruction, SwapTop, Charged, Unnoticed;
    if item.Operation? && IsValidInstruction(item.instr) && |stack| >= ArgCount(item.instr) && !IsDup(item.instr) && !IsSwap(item.instr) {
      ExecPlain(env, item.instr, stack, w);
      ExecPlain(env, item.instr, stack, Charged(charge, 1, w));
      ChargedOperation(env, charge, item.instr, Args(stack, ArgCount(item.instr)), Drop(stack, ArgCount(item.instr)), w);
    }
  }

  lemma ChargedOperation(env: Env, charge: int -> int, op: Opcode, args: seq<Word>, below: seq<Word>, w: World)
    requires Unnoticed(env, charge) && op != FREEGAS
    ensures ExecOperation(env, op, args, below, Charged(charge, 1, w)) == ChargedStep(charge, 1, ExecOperation(env, op, args, below, w))
  {
    hide ReadBytes, HasSideEffects, RetCount, PureValue, Load, Store, Charged, Unnoticed;
    ChargedParts(charge, w);
    ChargedStore(charge, op, At(args, 0), At(args, 1), w);
    ChargedAnswers(env, charge, op, args, w);
  }

  lemma ChargedParts(charge: int -> int, w: World)
    ensures Charged(charge, 1, w).storage == w.storage && Charged(charge, 1, w).memory == w.memory
  {
  }

  lemma ChargedStore(charge: int -> int, op: Opcode, slot: Word, value: Word, w: World)
    ensures Load(op, slot, Charged(charge, 1, w)) == Load(op, slot, w)
    ensures Store(op, slot, value, Charged(charge, 1, w)) == Charged(charge, 1, Store(op, slot, value, w))
  {
    hide ReadWord, WriteWord, Slot;
  }

  lemma ChargedAnswers(env: Env, charge: int -> int, op: Opcode, args: seq<Word>, w: World)
    requires Unnoticed(env, charge) && op != FREEGAS
    ensures PureValue(env, Charged(charge, 1, w).outside, op, args) == PureValue(env, w.outside, op, args)
    ensures SameEffect(env, charge, op, args, w)
  {
    hide Arithmetic, IsArithmetic, ArgCount, SameEffect;
    assert Iterated(charge, 1, w.outside) == charge(Iterated(charge, 0, w.outside)) == charge(w.outside);
  }

  /** An instruction other than FREEGAS does the same after any number of charges. */
  lemma {:induction false} ChargedItem(env: Env, charge: int -> int, times: nat, item: Item, stack: seq<Word>, w: World)
    requires Unnoticed(env, charge) && item != CHARGE
    ensures ExecItem(env, item, stack, Charged(charge, times, w)) == ChargedStep(charge, times, ExecItem(env, item, stack, w))
  {
    hide ExecItem, Unnoticed, Charged;
    NotCharged(charge, w);
    if times == 0 {
      var r := ExecItem(env, item, stack, w);
      if !r.Fail? {
        NotCharged(charge, r.world);
      }
    } else {
      ChargedItem(env, charge, times - 1, item, stack, w);
      ChargedOnce(env, charge, item, stack, Charged(charge, times - 1, w));
      OneMoreCharge(charge, times - 1, w);
      var r := ExecItem(env, item, stack, w);
      if !r.Fail? {
        OneMoreCharge(charge, times - 1, r.world);
      }
    }
  }

  lemma OneMoreCharge(charge: int -> int, times: nat, w: World)
    ensures Charged(charge, 1, Charged(charge, times, w)) == Charged(charge, times + 1, w)
  {
    var once := Iterated(charge, times, w.outside);
    assert Iterated(charge, 1, once) == charge(Iterated(charge, 0, once));
  }

  // ----- an environment that counts the charges -----

  /** Every charge costs one, and nothing else changes the outside. */
  ghost function Counting(): Env {
    Env((op, args, outside) => 0,
        (op, args, w: World) => (0, if op == FREEGAS then World(w.storage, w.memory, w.outside + 1) else w),
        item => 0, tag => 0, tag => true)
  }

  function Blank(a: nat): Octet { 0 }

  ghost function EmptyWorld(): World {
    World(imap k: Word | true :: Content(Blank(k) as Word), imap a: nat | true :: Blank(a), 0)
  }

  function Charges(item: Item): nat {
    if item == CHARGE then 1 else 0
  }

  predicate IsExecutable(item: Item) {
    !item.UndefinedItem? && (item.Operation? ==> IsValidInstruction(item.instr))
  }

  lemma CountedItem(item: Item, stack: seq<Word>, w: World)
    ensures var r := ExecItem(Counting(), item, stack, w);
            && (!r.Fail? ==> r.world.outside == w.outside + Charges(item))
            && (IsExecutable(item) && |stack| >= 17 ==> !r.Fail?)
            && (r.Next? ==> |r.stack| + 17 >= |stack|)
  {
    if item.Operation? {
      CountedInstruction(item.instr, stack, w);
    }
  }

  lemma CountedInstruction(op: Opcode, stack: seq<Word>, w: World)
    ensures var r := ExecItem(Counting(), Operation(op), stack, w);
            && (!r.Fail? ==> r.world.outside == w.outside + Charges(Operation(op)))
            && (IsValidInstruction(op) && |stack| >= 17 ==> !r.Fail?)
            && (r.Next? ==> |r.stack| + 17 >= |stack|)
  {
    hide ExecItem, ExecOperation, HasSideEffects, IsValidInstruction, ArgCount, Counting;
    FewArguments(op);
    if !IsValidInstruction(op) {
      ExecUndefined(Counting(), op, stack, w);
    } else if IsDup(op) {
      ExecDup(Counting(), op, stack, w);
      NoCharge(op);
    } else if IsSwap(op) {
      ExecSwap(Counting(), op, stack, w);
      NoCharge(op);
    } else {
      ExecPlain(Counting(), op, stack, w);
      if |stack| >= ArgCount(op) {
        CountedOperation(op, Args(stack, ArgCount(op)), Drop(stack, ArgCount(op)), w);
      }
    }
  }

  lemma ExecUndefined(env: Env, op: Opcode, stack: seq<Word>, w: World)
    requires !IsValidInstruction(op)
    ensures ExecItem(env, Operation(op), stack, w).Fail?
  {
    hide ExecOperation, ArgCount;
  }

  lemma NoCharge(op: Opcode)
    requires IsDup(op) || IsSwap(op)
    ensures op != FREEGAS && (if IsDup(op) then op - DUP1 + 1 else op - SWAP1 + 2) <= 17
  {
  }

  lemma FewArguments(op: Opcode)
    ensures ArgCount(op) <= 17
  {
  }

  lemma CountedEffect(op: Opcode, args: seq<Word>, w: World)
    ensures Counting().effect(op, args, w).1 == w.(outside := w.outside + Charges(Operation(op)))
  {
  }

  lemma StoresInside(op: Opcode, slot: Word, value: Word, w: World)
    ensures Store(op, slot, value, w).outside == w.outside
  {
    hide WriteWord;
  }

  lemma CountedOperation(op: Opcode, args: seq<Word>, below: seq<Word>, w: World)
    ensures var r := ExecOperation(Counting(), op, args, below, w);
            && !r.Fail? && r.world.outside == w.outside + Charges(Operation(op))
            && |r.stack| >= |below|
  {
    hide HasSideEffects, PureValue, ReadBytes, Load, Store, RetCount, Counting;
    CountedEffect(op, args, w);
    StoresInside(op, At(args, 0), At(args, 1), w);
  }

  function OneMore(outside: int): int {
    outside + 1
  }

  /** That is an environment in which nothing but the charge shows. */
  lemma CountingUnnoticed()
    ensures Unnoticed(Counting(), OneMore)
  {
    hide Charged, Counting;
    forall w: World
      ensures Counting().effect(FREEGAS, [], w).1 == Charged(OneMore, 1, w)
    {
      CountedEffect(FREEGAS, [], w);
      ChargedCounts(w);
    }
    forall op, args, w: World | op != FREEGAS
      ensures SameEffect(Counting(), OneMore, op, args, w)
    {
      CountedAnswers(op, args, w);
      CountedAnswers(op, args, Charged(OneMore, 1, w));
    }
    forall op, args, outside
      ensures Counting().query(op, args, OneMore(outside)) == Counting().query(op, args, outside)
    {
      CountedQuery(op, args, outside);
      CountedQuery(op, args, OneMore(outside));
    }
  }

  lemma ChargedCounts(w: World)
    ensures Charged(OneMore, 1, w) == w.(outside := w.outside + 1)
  {
    assert Iterated(OneMore, 1, w.outside) == OneMore(Iterated(OneMore, 0, w.outside));
  }

  lemma CountedAnswers(op: Opcode, args: seq<Word>, w: World)
    requires op != FREEGAS
    ensures Counting().effect(op, args, w) == (0, w)
  {
  }

  lemma CountedQuery(op: Opcode, args: seq<Word>, outside: int)
    ensures Counting().query(op, args, outside) == 0
  {
  }

  /** A block without FREEGAS is never charged. */
  lemma {:induction false} NeverCharged(items: seq<Item>, stack: seq<Word>, w: World)
    requires NoFreeGas(items)
    ensures var r := Exec(Counting(), items, stack, w); r.Fail? || r.world.outside == w.outside
  {
    hide ExecItem, Counting;
    if items != [] {
      CountedItem(items[0], stack, w);
      var r := ExecItem(Counting(), items[0], stack, w);
      if r.Next? {
        assert forall i | 0 <= i < |items[1..]| :: items[1..][i] == items[i + 1];
        NeverCharged(items[1..], r.stack, r.world);
      }
    }
  }

  // ----- runs -----

  lemma {:induction false} ShedsTarget(env: Env, before: seq<Item>, after: seq<Item>, dest: Word)
    requires Sheds(before, after)
    ensures Target(env, before, dest).Some? <==> Target(env, after, dest).Some?
    ensures Target(env, before, dest).Some? ==> Sheds(Target(env, before, dest).value, Target(env, after, dest).value)
  {
    if before != [] {
      if after != [] && after[0] == before[0] && Sheds(before[1..], after[1..]) {
        ShedsTarget(env, before[1..], after[1..], dest);
      } else {
        ShedsTarget(env, before[1..], after, dest);
      }
    }
  }

  /** Losing FREEGAS changes a run in the number of charges only. */
  lemma {:induction false} ShedsRun(env: Env, charge: int -> int, prog: seq<Item>, prog': seq<Item>, rest: seq<Item>, rest': seq<Item>,
                                    stack: seq<Word>, w: World, times: nat, fuel: nat) returns (n: nat)
    requires Unnoticed(env, charge) && Sheds(prog, prog') && Sheds(rest, rest')
    ensures Run(env, prog, rest, stack, Charged(charge, times, w), fuel) == ChargedOutcome(charge, n, Run(env, prog', rest', stack, w, fuel))
    ensures n >= times
    decreases fuel, |rest|
  {
    hide ExecItem, Unnoticed, Charged, Target;
    n := times;
    if rest == [] {
    } else if rest' != [] && rest'[0] == rest[0] && Sheds(rest[1..], rest'[1..]) && rest[0] != CHARGE {
      ChargedItem(env, charge, times, rest[0], stack, w);
      match ExecItem(env, rest[0], stack, w)
      case Next(s, w') => n := ShedsRun(env, charge, prog, prog', rest[1..], rest'[1..], s, w', times, fuel);
      case Jump(dest, s, w') =>
        ShedsTarget(env, prog, prog', dest);
        if Target(env, prog, dest).Some? && fuel > 0 {
          n := ShedsRun(env, charge, prog, prog', Target(env, prog, dest).value, Target(env, prog', dest).value, s, w', times, fuel - 1);
        }
      case _ =>
    } else {
      ExecCharge(env, stack, Charged(charge, times, w));
      ChargeIs(env, charge, times, w);
      if rest' != [] && rest'[0] == CHARGE && Sheds(rest[1..], rest'[1..]) {
        ExecCharge(env, stack, w);
        ChargeIs(env, charge, 0, w);
        n := ShedsRun(env, charge, prog, prog', rest[1..], rest'[1..], stack, Charged(charge, 1, w), times, fuel);
      } else {
        n := ShedsRun(env, charge, prog, prog', rest[1..], rest', stack, w, times + 1, fuel);
      }
    }
  }

  lemma {:induction false} ChargeIs(env: Env, charge: int -> int, times: nat, w: World)
    requires Unnoticed(env, charge)
    ensures env.effect(FREEGAS, [], Charged(charge, times, w)).1 == Charged(charge, times + 1, w)
    ensures Charged(charge, 0, w) == w
    ensures Charged(charge, times, Charged(charge, 1, w)) == Charged(charge, times + 1, w)
  {
    hide SameEffect;
    OneMoreCharge(charge, times, w);
    if times > 0 {
      ChargeIs(env, charge, times - 1, w);
      OneMoreCharge(charge, times - 1, Charged(charge, 1, w));
      OneMoreCharge(charge, times, w);
    }
  }

  // ----- behaviour up to charges -----

  ghost predicate EndsCharged(env: Env, charge: int -> int, prog: seq<Item>, stack: seq<Word>, w: World, o: Outcome) {
    exists n: nat :: Ends(env, prog, stack, w, ChargedOutcome(charge, n, o))
  }

  ghost predicate EndsUncharged(env: Env, charge: int -> int, prog: seq<Item>, stack: seq<Word>, w: World, o: Outcome) {
    exists n: nat, o' :: Ends(env, prog, stack, w, o') && o == ChargedOutcome(charge, n, o')
  }

  /** From every state in which the old program cannot get stuck, both programs end with the same
      status, output, stack, storage and memory, and the old one may have been charged more often. */
  ghost predicate SameUpToCharges(env: Env, charge: int -> int, before: seq<Item>, after: seq<Item>) {
    forall stack, w | Safe(env, before, stack, w) ::
      && Safe(env, after, stack, w)
      && (forall o | Ends(env, before, stack, w, o) :: EndsUncharged(env, charge, after, stack, w, o))
      && (forall o | Ends(env, after, stack, w, o) :: EndsCharged(env, charge, before, stack, w, o))
  }

  lemma ShedsBehave(env: Env, charge: int -> int, before: seq<Item>, after: seq<Item>)
    requires Unnoticed(env, charge) && Sheds(before, after)
    ensures SameUpToCharges(env, charge, before, after)
  {
    hide Unnoticed, Sheds, Run, Charged;
    forall stack, w | Safe(env, before, stack, w)
      ensures Safe(env, after, stack, w)
      ensures forall o | Ends(env, before, stack, w, o) :: EndsUncharged(env, charge, after, stack, w, o)
      ensures forall o | Ends(env, after, stack, w, o) :: EndsCharged(env, charge, before, stack, w, o)
    {
      forall fuel: nat
        ensures exists n: nat :: Run(env, before, before, stack, w, fuel) == ChargedOutcome(charge, n, Run(env, after, after, stack, w, fuel))
      {
        NotCharged(charge, w);
        var n := ShedsRun(env, charge, before, after, before, after, stack, w, 0, fuel);
      }
      forall fuel: nat
        ensures Run(env, after, after, stack, w, fuel) != Stuck
      {
        assert Run(env, before, before, stack, w, fuel) != Stuck;
      }
      forall o | Ends(env, before, stack, w, o)
        ensures EndsUncharged(env, charge, after, stack, w, o)
      {
        var fuel: nat :| Run(env, before, before, stack, w, fuel) == o;
        var n: nat :| o == ChargedOutcome(charge, n, Run(env, after, after, stack, w, fuel));
        assert Ends(env, after, stack, w, Run(env, after, after, stack, w, fuel));
      }
      forall o | Ends(env, after, stack, w, o)
        ensures EndsCharged(env, charge, before, stack, w, o)
      {
        var fuel: nat :| Run(env, after, after, stack, w, fuel) == o;
        var n: nat :| Run(env, before, before, stack, w, fuel) == ChargedOutcome(charge, n, o);
        assert Ends(env, before, stack, w, ChargedOutcome(charge, n, o));
      }
    }
  }

  lemma NotCharged(charge: int -> int, w: World)
    ensures Charged(charge, 0, w) == w
  {
  }

  lemma UpToChargesThenSame(env: Env, charge: int -> int, a: seq<Item>, b: seq<Item>, c: seq<Item>)
    requires SameUpToCharges(env, charge, a, b) && SameBehaviour(env, b, c)
    ensures SameUpToCharges(env, charge, a, c)
  {
    hide Safe, Ends, ChargedOutcome;
    forall stack, w | Safe(env, a, stack, w)
      ensures Safe(env, c, stack, w)
      ensures forall o | Ends(env, a, stack, w, o) :: EndsUncharged(env, charge, c, stack, w, o)
      ensures forall o | Ends(env, c, stack, w, o) :: EndsCharged(env, charge, a, stack, w, o)
    {
      forall o | Ends(env, a, stack, w, o)
        ensures EndsUncharged(env, charge, c, stack, w, o)
      {
        assert EndsUncharged(env, charge, b, stack, w, o);
        var n: nat, o' :| Ends(env, b, stack, w, o') && o == ChargedOutcome(charge, n, o');
        assert Ends(env, c, stack, w, o');
      }
      forall o | Ends(env, c, stack, w, o)
        ensures EndsCharged(env, charge, a, stack, w, o)
      {
        assert Ends(env, b, stack, w, o);
      }
    }
  }
}
