/** The stack machine that gives assembly items their meaning: 256-bit words, storage, byte
    memory, symbolic tags, JUMP and JUMPI. Opcode meanings follow Appendix H.2 of the Ethereum
    Yellow Paper; whatever lies outside the machine (the accounts, the call context, the layout
    of the assembled code) is a parameter of the run. */
module Machine {
  import opened Wrappers
  import opened Words
  import opened Instructions
  import opened Items

  type Octet = bv8

  /** The content of a storage slot. */
  datatype Content = Content(value: Word)

  type Storage = s: imap<Word, Content> | forall k: Word :: k in s
    ghost witness imap k: Word | true :: Content(0)

  type Memory = m: imap<nat, Octet> | forall a: nat :: a in m
    ghost witness imap a: nat | true :: 0

  ghost function Slot(s: Storage, k: Word): Word {
    s[k].value
  }

  /** What instructions can change. `outside` stands for everything beyond this contract's storage
      and memory: balances, logs, return data. */
  datatype World = World(storage: Storage, memory: Memory, outside: int)

  /** The parameters of a run:
      - `query` answers the instructions without side effects that read the outside,
      - `effect` performs the remaining instructions with side effects, and FREEGAS, which charges
        the contract although the instruction table lists no side effect for it,
      - `pushed` gives the values that are only known after assembly,
      - `address` gives the code position of a tag,
      - `entry` selects the tags that the run may jump to; a jump to any other tag counts as stuck. */
  datatype Env = Env(
    query: (Opcode, seq<Word>, int) -> Word,
    effect: (Opcode, seq<Word>, World) -> (Word, World),
    pushed: Item -> Word,
    address: Word -> Word,
    entry: Word -> bool)

  /** Account addresses have 160 bits. */
  ghost predicate AddressesFit(env: Env) {
    forall op, args, outside | op in {ADDRESS, CALLER, ORIGIN, COINBASE} ::
      env.query(op, args, outside) < ADDRESS_BASE
  }

  // ----- memory -----

  function ByteOf(v: Word, i: nat): Octet
    requires i < 32
  {
    ((v / Pow256(31 - i)) % 256) as bv8
  }

  ghost function ReadBytes(m: Memory, a: nat, n: nat): seq<Octet> {
    seq(n, i requires 0 <= i < n => m[a + i])
  }

  function FromBytes(bytes: seq<Octet>): nat {
    if bytes == [] then 0 else FromBytes(bytes[..|bytes| - 1]) * 256 + bytes[|bytes| - 1] as int
  }

  ghost function ReadWord(m: Memory, a: nat): Word {
    WordFits(ReadBytes(m, a, 32));
    FromBytes(ReadBytes(m, a, 32))
  }

  ghost function WriteWord(m: Memory, a: nat, v: Word): Memory {
    imap b: nat | true :: if a <= b < a + 32 then ByteOf(v, b - a) else m[b]
  }

  lemma FromBytesBound(bytes: seq<Octet>)
    ensures FromBytes(bytes) < Pow256(|bytes|)
  {
  }

  lemma Pow256Word(n: nat)
    requires n == 32
    ensures Pow256(n) == WORD_BASE
  {
    assert Pow256(8) == 0x1_0000_0000_0000_0000;
    Pow256Add(8, 8);
    Pow256Add(8, n - 16);
    Pow256Add(8, n - 24);
    Pow256Add(16, n - 16);
  }

  lemma Pow256Add(m: nat, n: nat)
    ensures Pow256(m + n) == Pow256(m) * Pow256(n)
  {
    if m != 0 {
      Pow256Add(m - 1, n);
      assert Pow256(m + n) == 256 * Pow256(m - 1 + n);
    }
  }

  lemma WordFits(bytes: seq<Octet>)
    requires |bytes| == 32
    ensures FromBytes(bytes) < WORD_BASE
  {
    FromBytesBound(bytes);
    Pow256Word(|bytes|);
  }

  // ----- instructions -----

  /** The arguments taken from the stack, the topmost first. */
  function Args(stack: seq<Word>, n: nat): seq<Word>
    requires n <= |stack|
  {
    seq(n, i requires 0 <= i < n => stack[|stack| - 1 - i])
  }

  function Drop(stack: seq<Word>, n: nat): seq<Word>
    requires n <= |stack|
  {
    stack[..|stack| - n]
  }

  function SwapTop(stack: seq<Word>, n: nat): seq<Word>
    requires n < |stack|
  {
    stack[|stack| - 1 := stack[|stack| - 1 - n]][|stack| - 1 - n := stack[|stack| - 1]]
  }

  predicate IsArithmetic(op: Opcode) {
    ADD <= op <= SIGNEXTEND || LT <= op <= SAR
  }

  function Arithmetic(op: Opcode, a: seq<Word>): Word
    requires IsArithmetic(op) && |a| == ArgCount(op)
  {
    if op == ADD then Add(a[0], a[1])
    else if op == MUL then Mul(a[0], a[1])
    else if op == SUB then Sub(a[0], a[1])
    else if op == DIV then Div(a[0], a[1])
    else if op == SDIV then SDiv(a[0], a[1])
    else if op == MOD then Mod(a[0], a[1])
    else if op == SMOD then SMod(a[0], a[1])
    else if op == ADDMOD then AddMod(a[0], a[1], a[2])
    else if op == MULMOD then MulMod(a[0], a[1], a[2])
    else if op == EXP then Exp(a[0], a[1])
    else if op == SIGNEXTEND then SignExtend(a[0], a[1])
    else if op == LT then Bool(a[0] < a[1])
    else if op == GT then Bool(a[0] > a[1])
    else if op == SLT then Bool(ToSigned(a[0]) < ToSigned(a[1]))
    else if op == SGT then Bool(ToSigned(a[0]) > ToSigned(a[1]))
    else if op == EQ then Bool(a[0] == a[1])
    else if op == ISZERO then Bool(a[0] == 0)
    else if op == AND then And(a[0], a[1])
    else if op == OR then Or(a[0], a[1])
    else if op == XOR then Xor(a[0], a[1])
    else if op == NOT then Not(a[0])
    else if op == BYTE then Byte(a[0], a[1])
    else if op == SHL then Shl(a[0], a[1])
    else if op == SHR then Shr(a[0], a[1])
    else Sar(a[0], a[1])
  }

  /** The result of an instruction that neither has side effects nor reads storage or memory. */
  function PureValue(env: Env, outside: int, op: Opcode, args: seq<Word>): Word {
    if IsArithmetic(op) && |args| == ArgCount(op) then Arithmetic(op, args) else env.query(op, args, outside)
  }

  datatype Status = Stopped | Reverted | Invalid | Destroyed(beneficiary: Word)

  datatype Step =
    | Next(stack: seq<Word>, world: World)
    | Jump(dest: Word, stack: seq<Word>, world: World)
    | Halt(status: Status, output: seq<Octet>, stack: seq<Word>, world: World)
    | Fail  // stack underflow, undefined instruction or item

  ghost function ExecInstruction(env: Env, op: Opcode, stack: seq<Word>, w: World): Step {
    var n := ArgCount(op);
    if !IsValidInstruction(op) || |stack| < n then Fail
    else if IsDup(op) then Next(stack + [stack[|stack| - n]], w)
    else if IsSwap(op) then Next(SwapTop(stack, n - 1), w)
    else ExecOperation(env, op, Args(stack, n), Drop(stack, n), w)
  }

  function At(args: seq<Word>, i: nat): Word {
    if i < |args| then args[i] else 0
  }

  ghost function Load(op: Opcode, slot: Word, w: World): Word {
    if op == SLOAD then Slot(w.storage, slot) else ReadWord(w.memory, slot)
  }

  ghost function Store(op: Opcode, slot: Word, value: Word, w: World): World {
    if op == SSTORE then w.(storage := w.storage[slot := Content(value)])
    else w.(memory := WriteWord(w.memory, slot, value))
  }

  ghost function ExecOperation(env: Env, op: Opcode, args: seq<Word>, below: seq<Word>, w: World): Step
  {
    if op == POP || op == JUMPDEST then Next(below, w)
    else if op == JUMP then Jump(At(args, 0), below, w)
    else if op == JUMPI then (if At(args, 1) != 0 then Jump(At(args, 0), below, w) else Next(below, w))
    else if op == STOP then Halt(Stopped, [], below, w)
    else if op == INVALID then Halt(Invalid, [], below, w)
    else if op == RETURN then Halt(Stopped, ReadBytes(w.memory, At(args, 0), At(args, 1)), below, w)
    else if op == REVERT then Halt(Reverted, ReadBytes(w.memory, At(args, 0), At(args, 1)), below, w)
    else if op == SELFDESTRUCT then Halt(Destroyed(At(args, 0)), [], below, w)
    else if op == SLOAD || op == MLOAD then Next(below + [Load(op, At(args, 0), w)], w)
    else if op == SSTORE || op == MSTORE then Next(below, Store(op, At(args, 0), At(args, 1), w))
    else if !HasSideEffects(op) && op != FREEGAS then
      Next(if RetCount(op) == 1 then below + [PureValue(env, w.outside, op, args)] else below, w)
    else
      var r := env.effect(op, args, w);
      Next(if RetCount(op) == 1 then below + [r.0] else below, r.1)
  }

  function PushedValue(env: Env, item: Item): Word {
    match item
    case Push(d) => d
    case PushTag(d) => env.address(d)
    case _ => env.pushed(item)
  }

  ghost function ExecItem(env: Env, item: Item, stack: seq<Word>, w: World): Step {
    match item
    case UndefinedItem(_) => Fail
    case Tag(_) => Next(stack, w)
    case Operation(op) => ExecInstruction(env, op, stack, w)
    case _ => Next(stack + [PushedValue(env, item)], w)
  }

  /** Runs items in order until one of them leaves the straight line. */
  ghost function Exec(env: Env, items: seq<Item>, stack: seq<Word>, w: World): Step {
    if items == [] then Next(stack, w)
    else
      var r := ExecItem(env, items[0], stack, w);
      if r.Next? then Exec(env, items[1..], r.stack, r.world) else r
  }

  lemma {:induction false} ExecConcat(env: Env, a: seq<Item>, b: seq<Item>, stack: seq<Word>, w: World)
    ensures Exec(env, a + b, stack, w) ==
            var r := Exec(env, a, stack, w);
            if r.Next? then Exec(env, b, r.stack, r.world) else r
  {
    hide ExecItem;
    if a == [] {
      assert a + b == b;
    } else {
      assert (a + b)[0] == a[0] && (a + b)[1..] == a[1..] + b;
      var r := ExecItem(env, a[0], stack, w);
      if r.Next? {
        ExecConcat(env, a[1..], b, r.stack, r.world);
      }
    }
  }

  lemma ExecOne(env: Env, item: Item, stack: seq<Word>, w: World)
    ensures Exec(env, [item], stack, w) == ExecItem(env, item, stack, w)
  {
    hide ExecItem;
    var r := ExecItem(env, item, stack, w);
    if r.Next? {
      assert [item][1..] == [];
      assert Exec(env, [], r.stack, r.world) == r;
    }
  }

  // ----- whole programs -----

  predicate IsEntry(env: Env, item: Item, dest: Word) {
    item.Tag? && env.entry(item.data) && env.address(item.data) == dest
  }

  /** The items that follow the first tag that may be entered at the given address. */
  function Target(env: Env, prog: seq<Item>, dest: Word): Option<seq<Item>> {
    if prog == [] then None
    else if IsEntry(env, prog[0], dest) then Some(prog[1..])
    else Target(env, prog[1..], dest)
  }

  datatype Outcome =
    | Done(status: Status, output: seq<Octet>, stack: seq<Word>, world: World)
    | Stuck       // underflow, undefined instruction, or a jump to something that is not a tag
    | OutOfFuel   // more jumps were taken than allowed

  /** The outcome of running `rest` inside `prog` when at most `fuel` jumps are taken.
      Running off the end of the code stops. */
  ghost function Run(env: Env, prog: seq<Item>, rest: seq<Item>, stack: seq<Word>, w: World, fuel: nat): Outcome
    decreases fuel, |rest|
  {
    if rest == [] then Done(Stopped, [], stack, w)
    else
      match ExecItem(env, rest[0], stack, w)
      case Next(s, w') => Run(env, prog, rest[1..], s, w', fuel)
      case Jump(dest, s, w') => RunJump(env, prog, dest, s, w', fuel)
      case Halt(status, output, s, w') => Done(status, output, s, w')
      case Fail => Stuck
  }

  ghost function RunJump(env: Env, prog: seq<Item>, dest: Word, stack: seq<Word>, w: World, fuel: nat): Outcome
    decreases fuel, 0
  {
    match Target(env, prog, dest)
    case None => Stuck
    case Some(rest) => if fuel == 0 then OutOfFuel else Run(env, prog, rest, stack, w, fuel - 1)
  }

  ghost function Continue(env: Env, prog: seq<Item>, rest: seq<Item>, step: Step, fuel: nat): Outcome {
    match step
    case Next(s, w) => Run(env, prog, rest, s, w, fuel)
    case Jump(dest, s, w) => RunJump(env, prog, dest, s, w, fuel)
    case Halt(status, output, s, w) => Done(status, output, s, w)
    case Fail => Stuck
  }

  /** A run goes through a straight-line prefix as `Exec` does. */
  lemma {:induction false} RunExec(env: Env, prog: seq<Item>, a: seq<Item>, rest: seq<Item>, stack: seq<Word>, w: World, fuel: nat)
    ensures Run(env, prog, a + rest, stack, w, fuel) == Continue(env, prog, rest, Exec(env, a, stack, w), fuel)
  {
    hide ExecItem;
    if a == [] {
      assert a + rest == rest;
    } else {
      assert (a + rest)[0] == a[0] && (a + rest)[1..] == a[1..] + rest;
      var r := ExecItem(env, a[0], stack, w);
      if r.Next? {
        RunExec(env, prog, a[1..], rest, r.stack, r.world, fuel);
      }
    }
  }

  /** More fuel does not change an outcome that was reached without running out. */
  lemma {:induction false} MoreFuel(env: Env, prog: seq<Item>, rest: seq<Item>, stack: seq<Word>, w: World, fuel: nat, more: nat)
    requires fuel <= more
    requires Run(env, prog, rest, stack, w, fuel) != OutOfFuel
    ensures Run(env, prog, rest, stack, w, more) == Run(env, prog, rest, stack, w, fuel)
    decreases fuel, |rest|
  {
    hide ExecItem;
    if rest != [] {
      var r := ExecItem(env, rest[0], stack, w);
      if r.Next? {
        MoreFuel(env, prog, rest[1..], r.stack, r.world, fuel, more);
      } else if r.Jump? {
        var t := Target(env, prog, r.dest);
        if t.Some? && fuel != 0 {
          MoreFuel(env, prog, t.value, r.stack, r.world, fuel - 1, more - 1);
        }
      }
    }
  }

  // ----- laws of single instructions -----

  predicate IsPushItem(item: Item) {
    !item.UndefinedItem? && !item.Operation? && !item.Tag?
  }

  lemma ExecPush(env: Env, item: Item, stack: seq<Word>, w: World)
    requires IsPushItem(item)
    ensures ExecItem(env, item, stack, w) == Next(stack + [PushedValue(env, item)], w)
  {
    hide ExecInstruction;
  }

  /** Valid instructions other than DUP and SWAP take their arguments from the stack first. */
  lemma ExecPlain(env: Env, op: Opcode, stack: seq<Word>, w: World)
    requires IsValidInstruction(op) && !IsDup(op) && !IsSwap(op)
    ensures var n := ArgCount(op);
            ExecItem(env, Operation(op), stack, w) ==
              if |stack| < n then Fail else ExecOperation(env, op, Args(stack, n), Drop(stack, n), w)
  {
    hide ExecOperation, ArgCount, IsDup, IsSwap, IsValidInstruction, Args, Drop;
  }

  lemma TableFacts(op: Opcode)
    ensures op == POP || op == JUMP || op == JUMPI || op == SLOAD || op == MLOAD || op == SSTORE || op == MSTORE ==>
              IsValidInstruction(op) && !IsDup(op) && !IsSwap(op)
    ensures op == POP || op == JUMP || op == SLOAD || op == MLOAD ==> ArgCount(op) == 1
    ensures op == SSTORE || op == MSTORE || op == JUMPI ==> ArgCount(op) == 2
    ensures IsDup(op) ==> IsValidInstruction(op) && ArgCount(op) == op - DUP1 + 1
    ensures IsSwap(op) ==> IsValidInstruction(op) && !IsDup(op) && ArgCount(op) == op - SWAP1 + 2
  {
  }

  lemma ExecPop(env: Env, stack: seq<Word>, w: World)
    ensures ExecItem(env, Operation(POP), stack, w) == if |stack| == 0 then Fail else Next(Drop(stack, 1), w)
  {
    hide ExecItem, ArgCount, IsDup, IsSwap, IsValidInstruction, Args, Drop, PureValue, HasSideEffects, RetCount, Load, Store, ReadBytes;
    TableFacts(POP);
    ExecPlain(env, POP, stack, w);
  }

  lemma ExecStop(env: Env, stack: seq<Word>, w: World)
    ensures ExecItem(env, Operation(STOP), stack, w) == Halt(Stopped, [], stack, w)
  {
    hide ExecItem, Args, PureValue, HasSideEffects, RetCount, Load, Store, ReadBytes;
    ExecPlain(env, STOP, stack, w);
    assert Drop(stack, 0) == stack;
  }

  lemma ExecDup(env: Env, op: Opcode, stack: seq<Word>, w: World)
    requires IsDup(op)
    ensures var n := op - DUP1 + 1;
            ExecItem(env, Operation(op), stack, w) == if |stack| < n then Fail else Next(stack + [stack[|stack| - n]], w)
  {
    hide ExecOperation, IsValidInstruction, ArgCount, Args, Drop;
    TableFacts(op);
  }

  lemma ExecSwap(env: Env, op: Opcode, stack: seq<Word>, w: World)
    requires IsSwap(op)
    ensures var n := op - SWAP1 + 1;
            ExecItem(env, Operation(op), stack, w) == if |stack| <= n then Fail else Next(SwapTop(stack, n), w)
  {
    hide ExecOperation, IsDup, IsValidInstruction, ArgCount, Args, Drop;
    TableFacts(op);
  }

  /** Instructions that compute one value from their arguments and the outside. */
  predicate IsPure(op: Opcode) {
    IsValidInstruction(op) && !HasSideEffects(op) && RetCount(op) == 1 && op != SLOAD && !IsDup(op) && !IsSwap(op)
  }

  lemma PureFacts(op: Opcode)
    requires !HasSideEffects(op) && RetCount(op) == 1
    ensures IsValidInstruction(op) && op != POP && !AltersControlFlow(op) && op != JUMPDEST && !IsDup(op) && !IsSwap(op)
    ensures op != MLOAD && op != SSTORE && op != MSTORE && op != FREEGAS
    ensures ArgCount(op) <= 3
  {
  }

  lemma ExecPure(env: Env, op: Opcode, stack: seq<Word>, w: World)
    requires IsPure(op)
    ensures var n := ArgCount(op);
            ExecItem(env, Operation(op), stack, w) ==
              if |stack| < n then Fail
              else Next(Drop(stack, n) + [PureValue(env, w.outside, op, Args(stack, n))], w)
  {
    hide ExecItem, ArgCount, IsDup, IsSwap, IsValidInstruction, Args, Drop, PureValue, HasSideEffects, RetCount, Load, Store, ReadBytes;
    PureFacts(op);
    ExecPlain(env, op, stack, w);
  }

  lemma ArgsValues(stack: seq<Word>)
    ensures |stack| >= 1 ==> Args(stack, 1) == [stack[|stack| - 1]]
    ensures |stack| >= 2 ==> Args(stack, 2) == [stack[|stack| - 1], stack[|stack| - 2]]
  {
  }

  lemma ArithmeticIsPure(env: Env, outside: int, op: Opcode, args: seq<Word>)
    requires IsArithmetic(op)
    ensures IsPure(op)
    ensures |args| == ArgCount(op) ==> PureValue(env, outside, op, args) == Arithmetic(op, args)
  {
    hide Arithmetic;
  }

  lemma ExecUnary(env: Env, op: Opcode, stack: seq<Word>, w: World)
    requires IsArithmetic(op) && ArgCount(op) == 1
    ensures ExecItem(env, Operation(op), stack, w) ==
              if |stack| < 1 then Fail
              else Next(Drop(stack, 1) + [Arithmetic(op, [stack[|stack| - 1]])], w)
  {
    hide ExecItem, IsPure, PureValue, Arithmetic, ArgCount, IsArithmetic, Args, Drop;
    ArgsValues(stack);
    ArithmeticIsPure(env, w.outside, op, if |stack| < 1 then [] else Args(stack, 1));
    ExecPure(env, op, stack, w);
  }

  lemma ExecBinary(env: Env, op: Opcode, stack: seq<Word>, w: World)
    requires IsArithmetic(op) && ArgCount(op) == 2
    ensures ExecItem(env, Operation(op), stack, w) ==
              if |stack| < 2 then Fail
              else Next(Drop(stack, 2) + [Arithmetic(op, [stack[|stack| - 1], stack[|stack| - 2]])], w)
  {
    hide ExecItem, IsPure, PureValue, Arithmetic, ArgCount, IsArithmetic, Args, Drop;
    ArgsValues(stack);
    ArithmeticIsPure(env, w.outside, op, if |stack| < 2 then [] else Args(stack, 2));
    ExecPure(env, op, stack, w);
  }

  lemma ExecLoad(env: Env, op: Opcode, stack: seq<Word>, w: World)
    requires op == SLOAD || op == MLOAD
    ensures ExecItem(env, Operation(op), stack, w) ==
              if |stack| < 1 then Fail
              else Next(Drop(stack, 1) + [Load(op, stack[|stack| - 1], w)], w)
  {
    hide ExecItem, ArgCount, IsDup, IsSwap, IsValidInstruction, Drop, PureValue, HasSideEffects, RetCount, Load, Store, ReadBytes;
    TableFacts(op);
    ExecPlain(env, op, stack, w);
  }

  lemma ExecStore(env: Env, op: Opcode, stack: seq<Word>, w: World)
    requires op == SSTORE || op == MSTORE
    ensures ExecItem(env, Operation(op), stack, w) ==
              if |stack| < 2 then Fail
              else Next(Drop(stack, 2), Store(op, stack[|stack| - 1], stack[|stack| - 2], w))
  {
    hide ExecItem, ArgCount, IsDup, IsSwap, IsValidInstruction, Drop, PureValue, HasSideEffects, RetCount, Load, Store, ReadBytes;
    TableFacts(op);
    ExecPlain(env, op, stack, w);
  }

  lemma ExecJump(env: Env, stack: seq<Word>, w: World)
    ensures ExecItem(env, Operation(JUMP), stack, w) ==
              if |stack| < 1 then Fail else Jump(stack[|stack| - 1], Drop(stack, 1), w)
  {
    hide ExecItem, ArgCount, IsDup, IsSwap, IsValidInstruction, Drop, PureValue, HasSideEffects, RetCount, Load, Store, ReadBytes;
    TableFacts(JUMP);
    ExecPlain(env, JUMP, stack, w);
  }

  lemma ExecJumpI(env: Env, stack: seq<Word>, w: World)
    ensures ExecItem(env, Operation(JUMPI), stack, w) ==
              if |stack| < 2 then Fail
              else if stack[|stack| - 2] != 0 then Jump(stack[|stack| - 1], Drop(stack, 2), w)
              else Next(Drop(stack, 2), w)
  {
    hide ExecItem, ArgCount, IsDup, IsSwap, IsValidInstruction, Drop, PureValue, HasSideEffects, RetCount, Load, Store, ReadBytes;
    TableFacts(JUMPI);
    ExecPlain(env, JUMPI, stack, w);
  }

  /** The items after one that never continues are not reached. */
  lemma ExecTerminator(env: Env, op: Opcode, stack: seq<Word>, w: World)
    requires AltersControlFlow(op) && op != JUMPI
    ensures !ExecItem(env, Operation(op), stack, w).Next?
  {
    hide ExecItem, ArgCount, Args, Drop, PureValue, HasSideEffects, RetCount, Load, Store, ReadBytes;
    ExecPlain(env, op, stack, w);
  }

  lemma CommutativeArguments(op: Opcode, x: Word, y: Word)
    requires IsCommutative(op)
    ensures IsArithmetic(op) && ArgCount(op) == 2
    ensures Arithmetic(op, [x, y]) == Arithmetic(op, [y, x])
  {
    BitAndComm(x, y);
    BitOrComm(x, y);
    BitXorComm(x, y);
    assert x * y == y * x;
  }

  lemma ExecTag(env: Env, item: Item, stack: seq<Word>, w: World)
    requires item.Tag?
    ensures ExecItem(env, item, stack, w) == Next(stack, w)
  {
    hide ExecInstruction, PushedValue;
  }

  lemma ExecTwo(env: Env, a: Item, b: Item, stack: seq<Word>, w: World)
    ensures Exec(env, [a, b], stack, w) ==
            var r := ExecItem(env, a, stack, w);
            if r.Next? then ExecItem(env, b, r.stack, r.world) else r
  {
    hide ExecItem;
    assert [a, b] == [a] + [b];
    ExecConcat(env, [a], [b], stack, w);
    ExecOne(env, a, stack, w);
    var r := ExecItem(env, a, stack, w);
    if r.Next? {
      ExecOne(env, b, r.stack, r.world);
    }
  }

  lemma ExecThree(env: Env, a: Item, b: Item, c: Item, stack: seq<Word>, w: World)
    ensures Exec(env, [a, b, c], stack, w) ==
            var r := ExecItem(env, a, stack, w);
            if r.Next? then
              var r' := ExecItem(env, b, r.stack, r.world);
              if r'.Next? then ExecItem(env, c, r'.stack, r'.world) else r'
            else r
  {
    hide ExecItem;
    assert [a, b, c] == [a, b] + [c];
    ExecConcat(env, [a, b], [c], stack, w);
    ExecTwo(env, a, b, stack, w);
    var r := Exec(env, [a, b], stack, w);
    if r.Next? {
      ExecOne(env, c, r.stack, r.world);
    }
  }

  /** Discards the topmost k values. */
  function Pops(k: nat): seq<Item> {
    seq(k, i => Operation(POP))
  }

  lemma {:induction false} ExecPops(env: Env, k: nat, stack: seq<Word>, w: World)
    requires k <= |stack|
    ensures Exec(env, Pops(k), stack, w) == Next(Drop(stack, k), w)
  {
    hide ExecItem;
    if k == 0 {
      assert Pops(0) == [] && Drop(stack, 0) == stack;
    } else {
      assert Pops(k)[0] == Operation(POP) && Pops(k)[1..] == Pops(k - 1);
      ExecPop(env, stack, w);
      ExecPops(env, k - 1, Drop(stack, 1), w);
      assert Drop(Drop(stack, 1), k - 1) == Drop(stack, k);
    }
  }
}
