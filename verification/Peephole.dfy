/** The peephole optimiser (libevmasm/PeepholeOptimiser.cpp): ten local rewriting methods tried in
    a fixed order at every position, repeated until a pass brings no gain. */
module Peephole {
  import opened Wrappers
  import opened Words
  import opened Instructions
  import opened Items
  import opened Machine
  import opened Rewriting
  import opened FreeGas

  /** How many items a method consumes and what it emits for them. */
  datatype Match = Match(size: nat, out: seq<Item>)

  // ----- the rewriting methods -----

  predicate IsRemovablePush(item: Item) {
    || IsDupItem(item)
    || item.Push? || item.PushString? || item.PushTag? || item.PushSub?
    || item.PushSubSize? || item.PushProgramSize? || item.PushData? || item.PushLibraryAddress?
  }

  function PushPop(rest: seq<Item>): Option<Match> {
    if |rest| >= 2 && rest[1] == Operation(POP) && IsRemovablePush(rest[0]) then Some(Match(2, [])) else None
  }

  function OpPop(rest: seq<Item>): Option<Match> {
    if |rest| >= 2 && rest[1] == Operation(POP) && rest[0].Operation?
       && RetCount(rest[0].instr) == 1 && !HasSideEffects(rest[0].instr)
    then Some(Match(2, Pops(ArgCount(rest[0].instr))))
    else None
  }

  function DoublePush(rest: seq<Item>): Option<Match> {
    if |rest| >= 2 && rest[0].Push? && rest[1].Push? && rest[0].data == rest[1].data
    then Some(Match(2, [rest[0], Operation(DUP1)]))
    else None
  }

  function DoubleSwap(rest: seq<Item>): Option<Match> {
    if |rest| >= 2 && rest[0] == rest[1] && IsSwapItem(rest[0]) then Some(Match(2, [])) else None
  }

  function CommutativeSwap(rest: seq<Item>): Option<Match> {
    if |rest| >= 2 && rest[0] == Operation(SWAP1) && IsCommutativeItem(rest[1])
    then Some(Match(2, [rest[1]]))
    else None
  }

  function Swapped(op: Opcode): Option<Opcode> {
    if op == LT then Some(GT)
    else if op == GT then Some(LT)
    else if op == SLT then Some(SGT)
    else if op == SGT then Some(SLT)
    else None
  }

  function SwapComparison(rest: seq<Item>): Option<Match> {
    if |rest| >= 2 && rest[0] == Operation(SWAP1) && rest[1].Operation? && Swapped(rest[1].instr).Some?
    then Some(Match(2, [Operation(Swapped(rest[1].instr).value)]))
    else None
  }

  function JumpToNext(rest: seq<Item>): Option<Match> {
    if |rest| >= 3 && rest[0].PushTag? && (rest[1] == Operation(JUMP) || rest[1] == Operation(JUMPI))
       && rest[2].Tag? && rest[0].data == rest[2].data
    then Some(Match(3, (if rest[1] == Operation(JUMPI) then [Operation(POP)] else []) + [rest[2]]))
    else None
  }

  /** Number of items before the next tag. */
  function UntilTag(rest: seq<Item>): (n: nat)
    ensures n <= |rest| && NoTags(rest[..n])
  {
    if rest == [] || rest[0].Tag? then 0 else 1 + UntilTag(rest[1..])
  }

  predicate NeverContinues(item: Item) {
    item.Operation? && AltersControlFlow(item.instr) && item.instr != JUMPI
  }

  function UnreachableCode(rest: seq<Item>): Option<Match> {
    if rest != [] && NeverContinues(rest[0]) && UntilTag(rest[1..]) > 0
    then Some(Match(1 + UntilTag(rest[1..]), [rest[0]]))
    else None
  }

  function TagConjunctions(rest: seq<Item>): Option<Match> {
    if |rest| >= 3 && rest[0].PushTag? && rest[2] == Operation(AND) && rest[1].Push?
       && And(rest[1].data, 0xFFFFFFFF) == 0xFFFFFFFF
    then Some(Match(3, [rest[0]]))
    else None
  }

  function TruthyAnd(rest: seq<Item>): Option<Match> {
    if |rest| >= 3 && rest[0] == Push(0) && rest[1] == Operation(NOT) && rest[2] == Operation(AND)
    then Some(Match(3, []))
    else None
  }

  function Identity(rest: seq<Item>): Match
    requires rest != []
  {
    Match(1, [rest[0]])
  }

  function OrElse(a: Option<Match>, b: Option<Match>): Option<Match> {
    if a.Some? then a else b
  }

  /** The first method other than the identity that applies. */
  function Rewrite(rest: seq<Item>): Option<Match> {
    OrElse(PushPop(rest), OrElse(OpPop(rest), OrElse(DoublePush(rest), OrElse(DoubleSwap(rest),
    OrElse(CommutativeSwap(rest), OrElse(SwapComparison(rest), OrElse(JumpToNext(rest),
    OrElse(UnreachableCode(rest), OrElse(TagConjunctions(rest), TruthyAnd(rest))))))))))
  }

  function ApplyMethods(rest: seq<Item>): (m: Match)
    requires rest != []
    ensures 0 < m.size <= |rest|
  {
    if Rewrite(rest).Some? then Rewrite(rest).value else Identity(rest)
  }

  /** The pieces one pass cuts the items into, with their replacements. */
  function Pieces(items: seq<Item>): seq<Piece> {
    if items == [] then []
    else
      var m := ApplyMethods(items);
      [Piece(items[..m.size], m.out)] + Pieces(items[m.size..])
  }

  /** The items that one pass emits. */
  function Pass(items: seq<Item>): seq<Item> {
    if items == [] then []
    else
      var m := ApplyMethods(items);
      m.out + Pass(items[m.size..])
  }

  lemma {:induction false} PiecesCover(items: seq<Item>)
    ensures Before(Pieces(items)) == items && After(Pieces(items)) == Pass(items)
  {
    hide ApplyMethods;
    if items != [] {
      var m := ApplyMethods(items);
      PiecesCover(items[m.size..]);
      assert Pieces(items)[1..] == Pieces(items[m.size..]);
      assert items == items[..m.size] + items[m.size..];
    }
  }

  // ----- every method keeps the meaning of its piece -----

  lemma PushPopCorrect(env: Env, rest: seq<Item>)
    requires PushPop(rest).Some?
    ensures Replaces(env, Piece(rest[..2], []))
  {
    hide ExecItem;
    assert rest[..2] == [rest[0], rest[1]];
    forall stack, w
      ensures SameStep(env, Piece(rest[..2], []), stack, w)
    {
      ExecTwo(env, rest[0], rest[1], stack, w);
      if IsDupItem(rest[0]) {
        ExecDup(env, rest[0].instr, stack, w);
      } else {
        ExecPush(env, rest[0], stack, w);
      }
      var r := ExecItem(env, rest[0], stack, w);
      if r.Next? {
        ExecPop(env, r.stack, w);
        assert Drop(r.stack, 1) == stack;
      }
    }
  }

  ghost function OneResult(env: Env, op: Opcode, args: seq<Word>, w: World): Word {
    if op == SLOAD then Load(op, At(args, 0), w) else PureValue(env, w.outside, op, args)
  }

  /** An instruction without side effects replaces its arguments by one value. */
  lemma ExecOneResult(env: Env, op: Opcode, stack: seq<Word>, w: World)
    requires RetCount(op) == 1 && !HasSideEffects(op)
    ensures ExecItem(env, Operation(op), stack, w) ==
              if |stack| < ArgCount(op) then Fail
              else Next(Drop(stack, ArgCount(op)) + [OneResult(env, op, Args(stack, ArgCount(op)), w)], w)
  {
    hide ExecItem, RetCount, HasSideEffects, ArgCount, PureValue, Load;
    PureFacts(op);
    if op == SLOAD {
      TableFacts(op);
      ExecLoad(env, op, stack, w);
    } else {
      ExecPure(env, op, stack, w);
    }
  }

  lemma OpPopCorrect(env: Env, rest: seq<Item>)
    requires OpPop(rest).Some?
    ensures Replaces(env, Piece(rest[..2], OpPop(rest).value.out))
  {
    hide ExecItem, RetCount, HasSideEffects, ArgCount, OneResult, Args;
    var op := rest[0].instr;
    assert rest[..2] == [rest[0], rest[1]];
    forall stack, w
      ensures SameStep(env, Piece(rest[..2], Pops(ArgCount(op))), stack, w)
    {
      ExecTwo(env, rest[0], rest[1], stack, w);
      ExecOneResult(env, op, stack, w);
      if ArgCount(op) <= |stack| {
        var s := ExecItem(env, rest[0], stack, w).stack;
        ExecPop(env, s, w);
        ExecPops(env, ArgCount(op), stack, w);
        assert Drop(s, 1) == Drop(stack, ArgCount(op));
      }
    }
  }

  lemma DoublePushCorrect(env: Env, rest: seq<Item>)
    requires DoublePush(rest).Some?
    ensures Replaces(env, Piece(rest[..2], DoublePush(rest).value.out))
  {
    hide ExecItem;
    assert rest[..2] == [rest[0], rest[1]];
    forall stack, w
      ensures SameStep(env, Piece(rest[..2], [rest[0], Operation(DUP1)]), stack, w)
    {
      ExecTwo(env, rest[0], rest[1], stack, w);
      ExecTwo(env, rest[0], Operation(DUP1), stack, w);
      ExecPush(env, rest[0], stack, w);
      var s := stack + [rest[0].data];
      ExecPush(env, rest[1], s, w);
      ExecDup(env, DUP1, s, w);
    }
  }

  lemma DoubleSwapCorrect(env: Env, rest: seq<Item>)
    requires DoubleSwap(rest).Some?
    ensures Replaces(env, Piece(rest[..2], []))
  {
    hide ExecItem;
    var op := rest[0].instr;
    var n := op - SWAP1 + 1;
    assert rest[..2] == [rest[0], rest[1]];
    forall stack, w
      ensures SameStep(env, Piece(rest[..2], []), stack, w)
    {
      ExecTwo(env, rest[0], rest[1], stack, w);
      ExecSwap(env, op, stack, w);
      if n < |stack| {
        ExecSwap(env, op, SwapTop(stack, n), w);
        assert SwapTop(SwapTop(stack, n), n) == stack;
      }
    }
  }

  /** A binary arithmetic instruction after SWAP1 sees its arguments exchanged. */
  lemma ExecSwapped(env: Env, op: Opcode, stack: seq<Word>, w: World)
    requires IsArithmetic(op) && ArgCount(op) == 2
    ensures Exec(env, [Operation(SWAP1), Operation(op)], stack, w) ==
              if |stack| < 2 then Fail
              else Next(Drop(stack, 2) + [Arithmetic(op, [stack[|stack| - 2], stack[|stack| - 1]])], w)
    ensures ExecItem(env, Operation(op), stack, w) ==
              if |stack| < 2 then Fail
              else Next(Drop(stack, 2) + [Arithmetic(op, [stack[|stack| - 1], stack[|stack| - 2]])], w)
  {
    hide ExecItem, Exec, Arithmetic, ArgCount, IsArithmetic;
    ExecTwo(env, Operation(SWAP1), Operation(op), stack, w);
    ExecSwap(env, SWAP1, stack, w);
    ExecBinary(env, op, stack, w);
    if |stack| >= 2 {
      ExecBinary(env, op, SwapTop(stack, 1), w);
      assert Drop(SwapTop(stack, 1), 2) == Drop(stack, 2);
    }
  }

  lemma ComparedArguments(op: Opcode, x: Word, y: Word)
    requires Swapped(op).Some?
    ensures IsArithmetic(op) && ArgCount(op) == 2
    ensures IsArithmetic(Swapped(op).value) && ArgCount(Swapped(op).value) == 2
    ensures Arithmetic(op, [x, y]) == Arithmetic(Swapped(op).value, [y, x])
  {
  }

  lemma CommutativeSwapCorrect(env: Env, rest: seq<Item>)
    requires CommutativeSwap(rest).Some?
    ensures Replaces(env, Piece(rest[..2], CommutativeSwap(rest).value.out))
  {
    hide ExecItem, Arithmetic, IsCommutative, ArgCount, IsArithmetic;
    var op := rest[1].instr;
    assert rest[..2] == [Operation(SWAP1), Operation(op)];
    CommutativeArguments(op, 0, 0);
    forall stack, w
      ensures SameStep(env, Piece(rest[..2], [rest[1]]), stack, w)
    {
      ExecSwapped(env, op, stack, w);
      ExecOne(env, rest[1], stack, w);
      if |stack| >= 2 {
        CommutativeArguments(op, stack[|stack| - 1], stack[|stack| - 2]);
      }
    }
  }

  lemma SwapComparisonCorrect(env: Env, rest: seq<Item>)
    requires SwapComparison(rest).Some?
    ensures Replaces(env, Piece(rest[..2], SwapComparison(rest).value.out))
  {
    hide ExecItem, Arithmetic, ArgCount, IsArithmetic;
    var op := rest[1].instr;
    var op' := Swapped(op).value;
    assert rest[..2] == [Operation(SWAP1), Operation(op)];
    ComparedArguments(op, 0, 0);
    forall stack, w
      ensures SameStep(env, Piece(rest[..2], [Operation(op')]), stack, w)
    {
      ExecSwapped(env, op, stack, w);
      ExecSwapped(env, op', stack, w);
      ExecOne(env, Operation(op'), stack, w);
      if |stack| >= 2 {
        ComparedArguments(op, stack[|stack| - 2], stack[|stack| - 1]);
      }
    }
  }

  lemma JumpToNextCorrect(env: Env, rest: seq<Item>)
    requires JumpToNext(rest).Some?
    ensures Replaces(env, Piece(rest[..3], JumpToNext(rest).value.out))
  {
    hide ExecItem;
    var p := Piece(rest[..3], JumpToNext(rest).value.out);
    assert rest[..3] == [rest[0], rest[1], rest[2]];
    forall stack, w
      ensures SameStep(env, p, stack, w)
    {
      ExecThree(env, rest[0], rest[1], rest[2], stack, w);
      ExecPush(env, rest[0], stack, w);
      var s := stack + [env.address(rest[0].data)];
      assert Drop(s, 1) == stack;
      if rest[1] == Operation(JUMP) {
        ExecJump(env, s, w);
        assert p.after == [rest[2]];
        ExecOne(env, rest[2], stack, w);
        ExecTag(env, rest[2], stack, w);
      } else {
        ExecJumpI(env, s, w);
        assert p.after == [Operation(POP), rest[2]];
        ExecTwo(env, Operation(POP), rest[2], stack, w);
        ExecPop(env, stack, w);
        if |stack| > 0 {
          assert Drop(s, 2) == Drop(stack, 1);
          ExecTag(env, rest[2], Drop(stack, 1), w);
        }
      }
    }
  }

  lemma UnreachableCodeCorrect(env: Env, rest: seq<Item>)
    requires UnreachableCode(rest).Some?
    ensures Replaces(env, Piece(rest[..UnreachableCode(rest).value.size], [rest[0]]))
  {
    hide ExecItem;
    var n := UnreachableCode(rest).value.size;
    var p := Piece(rest[..n], [rest[0]]);
    assert rest[1..][..n - 1] == rest[1..n];
    assert NoTags(rest[..n]) by {
      forall i | 0 <= i < n
        ensures !rest[..n][i].Tag?
      {
        assert i > 0 ==> rest[i] == rest[1..][..n - 1][i - 1];
      }
    }
    forall stack, w
      ensures SameStep(env, p, stack, w)
    {
      ExecTerminator(env, rest[0].instr, stack, w);
      ExecOne(env, rest[0], stack, w);
    }
  }

  lemma MaskedAddress(c: Word, a: Word)
    requires And(c, 0xFFFFFFFF) == 0xFFFFFFFF && a < 0x1_0000_0000
    ensures And(c, a) == a
  {
    var n: nat :| n == 32;
    Pow2ThirtyTwo(n);
    var m: nat := Pow2(n) - 1;
    BitAndAssoc(c, m, a);
    BitAndComm(m, a);
    BitMaskSmall(a, n);
  }

  lemma FullMask(a: Word)
    ensures And(MAX_WORD, a) == a
  {
    Pow2Bits();
    BitAndComm(MAX_WORD, a);
    BitMaskSmall(a, WORD_BITS);
  }

  lemma ExecAnd(env: Env, stack: seq<Word>, w: World)
    ensures ExecItem(env, Operation(AND), stack, w) ==
              if |stack| < 2 then Fail
              else Next(Drop(stack, 2) + [And(stack[|stack| - 1], stack[|stack| - 2])], w)
  {
    hide ExecItem, And, Drop;
    ExecBinary(env, AND, stack, w);
  }

  lemma ExecNot(env: Env, stack: seq<Word>, w: World)
    ensures ExecItem(env, Operation(NOT), stack, w) ==
              if |stack| < 1 then Fail
              else Next(Drop(stack, 1) + [Not(stack[|stack| - 1])], w)
  {
    hide ExecItem, Not, Drop;
    ExecUnary(env, NOT, stack, w);
  }

  lemma TagConjunctionsCorrect(env: Env, rest: seq<Item>)
    requires TagConjunctions(rest).Some?
    requires env.address(rest[0].data) < 0x1_0000_0000
    ensures Replaces(env, Piece(rest[..3], [rest[0]]))
  {
    hide ExecItem, Exec, And;
    assert rest[..3] == [rest[0], rest[1], rest[2]];
    var a, c := env.address(rest[0].data), rest[1].data;
    forall stack, w
      ensures SameStep(env, Piece(rest[..3], [rest[0]]), stack, w)
    {
      ExecThree(env, rest[0], rest[1], rest[2], stack, w);
      ExecPush(env, rest[0], stack, w);
      ExecPush(env, rest[1], stack + [a], w);
      ExecOne(env, rest[0], stack, w);
      var s := stack + [a] + [c];
      ExecAnd(env, s, w);
      assert Drop(s, 2) == stack;
      MaskedAddress(c, a);
    }
  }

  lemma TruthyAndCorrect(env: Env, rest: seq<Item>)
    requires TruthyAnd(rest).Some?
    ensures Replaces(env, Piece(rest[..3], []))
  {
    hide ExecItem, And;
    assert rest[..3] == [rest[0], rest[1], rest[2]];
    forall stack, w
      ensures SameStep(env, Piece(rest[..3], []), stack, w)
    {
      ExecThree(env, rest[0], rest[1], rest[2], stack, w);
      ExecPush(env, rest[0], stack, w);
      var s := stack + [0];
      ExecNot(env, s, w);
      assert Drop(s, 1) == stack;
      var s' := stack + [MAX_WORD];
      ExecAnd(env, s', w);
      if |stack| > 0 {
        FullMask(stack[|stack| - 1]);
        assert Drop(s', 2) + [stack[|stack| - 1]] == stack;
      }
    }
  }

  /** Tags are placed below 2^32, as the assembler enforces. */
  ghost predicate TagsFit(env: Env) {
    forall t :: env.address(t) < 0x1_0000_0000
  }

  lemma RewriteCorrect(env: Env, rest: seq<Item>)
    requires Rewrite(rest).Some? && TagsFit(env)
    ensures var m := Rewrite(rest).value;
            m.size <= |rest| && Replaces(env, Piece(rest[..m.size], m.out))
  {
    hide Replaces, RetCount, HasSideEffects, ArgCount, And, IsRemovablePush, IsCommutativeItem, Swapped, NeverContinues, UntilTag, Pops;
    if PushPop(rest).Some? { PushPopCorrect(env, rest); }
    else if OpPop(rest).Some? { OpPopCorrect(env, rest); }
    else if DoublePush(rest).Some? { DoublePushCorrect(env, rest); }
    else if DoubleSwap(rest).Some? { DoubleSwapCorrect(env, rest); }
    else if CommutativeSwap(rest).Some? { CommutativeSwapCorrect(env, rest); }
    else if SwapComparison(rest).Some? { SwapComparisonCorrect(env, rest); }
    else if JumpToNext(rest).Some? { JumpToNextCorrect(env, rest); }
    else if UnreachableCode(rest).Some? { UnreachableCodeCorrect(env, rest); }
    else if TagConjunctions(rest).Some? { TagConjunctionsCorrect(env, rest); }
    else { TruthyAndCorrect(env, rest); }
  }

  lemma {:induction false} PiecesReplace(env: Env, items: seq<Item>)
    requires TagsFit(env)
    ensures AllReplace(env, Pieces(items))
  {
    hide Replaces, Rewrite;
    if items != [] {
      var m := ApplyMethods(items);
      PiecesReplace(env, items[m.size..]);
      if Rewrite(items).Some? {
        RewriteCorrect(env, items);
      } else {
        KeptItem(env, items[0]);
        assert items[..1] == [items[0]];
      }
    }
  }

  /** One pass keeps the behaviour of the whole program. */
  lemma PassCorrect(env: Env, items: seq<Item>)
    requires TagsFit(env) && DistinctTags(env, items)
    ensures SameBehaviour(env, items, Pass(items))
    ensures TagsOf(Pass(items)) == TagsOf(items) && DistinctTags(env, Pass(items))
  {
    hide SameBehaviour, AllReplace;
    PiecesCover(items);
    PiecesReplace(env, items);
    PiecewiseCorrect(env, Pieces(items));
  }

  lemma RewriteMakesUpNothing(rest: seq<Item>)
    requires rest != []
    ensures NothingMadeUp(rest[..ApplyMethods(rest).size], ApplyMethods(rest).out)
  {
    hide RetCount, HasSideEffects, ArgCount, And, UntilTag, IsRemovablePush, IsCommutativeItem, NeverContinues;
  }

  /** One pass makes up no tags and keeps those of the program in their order. */
  lemma {:induction false} PassTags(items: seq<Item>)
    ensures NothingMadeUp(items, Pass(items)) && TagsOf(Pass(items)) == TagsOf(items)
  {
    hide ApplyMethods, Replaces;
    PassMakesUpNothing(items);
    var env := Env((o, a, x) => 0, (o, a, w) => (0, w), i => 0, t => 0, t => true);
    PiecesReplace(env, items);
    PiecesCover(items);
    forall i | 0 <= i < |Pieces(items)|
      ensures TagsKept(Pieces(items)[i])
    {
      ReplacesTags(env, Pieces(items)[i]);
    }
    TagsOfPieces(Pieces(items));
  }

  lemma ReplacesTags(env: Env, p: Piece)
    requires Replaces(env, p)
    ensures TagsKept(p)
  {
  }

  lemma {:induction false} PassMakesUpNothing(items: seq<Item>)
    ensures NothingMadeUp(items, Pass(items))
  {
    hide ApplyMethods;
    if items != [] {
      var m := ApplyMethods(items);
      RewriteMakesUpNothing(items);
      PassMakesUpNothing(items[m.size..]);
      assert items == items[..m.size] + items[m.size..];
    }
  }

  // ----- repeating the pass comes to an end -----

  function NumberOfPops(items: seq<Item>): nat {
    if items == [] then 0 else (if items[0] == Operation(POP) then 1 else 0) + NumberOfPops(items[1..])
  }

  /** The test that decides whether the result of a pass is kept. */
  predicate Gain(items: seq<Item>, optimised: seq<Item>) {
    || |optimised| < |items|
    || (|optimised| == |items| &&
        (CodeBytes(optimised, 3) < CodeBytes(items, 3) || NumberOfPops(optimised) > NumberOfPops(items)))
  }

  /** A pass may lengthen the code (popping the result of a three-argument instruction takes three
      POPs), but in this weighting every method other than the identity makes it lighter. */
  function Weight(items: seq<Item>): nat {
    if items == [] then 0
    else (if items[0] == Operation(POP) then 1 else if items[0].Push? then 5 else 4) + Weight(items[1..])
  }

  lemma {:induction false} WeightConcat(a: seq<Item>, b: seq<Item>)
    ensures Weight(a + b) == Weight(a) + Weight(b)
  {
    if a == [] {
      assert a + b == b;
    } else {
      assert (a + b)[0] == a[0] && (a + b)[1..] == a[1..] + b;
      WeightConcat(a[1..], b);
    }
  }

  lemma {:induction false} WeightBounds(a: seq<Item>)
    ensures |a| <= Weight(a) <= 5 * |a|
  {
    if a != [] {
      WeightBounds(a[1..]);
    }
  }

  lemma {:induction false} WeightOfPops(n: nat)
    ensures Weight(Pops(n)) == n
  {
    if n > 0 {
      assert Pops(n)[1..] == Pops(n - 1);
      WeightOfPops(n - 1);
    }
  }

  function ItemWeight(item: Item): nat {
    if item == Operation(POP) then 1 else if item.Push? then 5 else 4
  }

  lemma WeightSmall(items: seq<Item>)
    ensures |items| == 1 ==> Weight(items) == ItemWeight(items[0])
    ensures |items| == 2 ==> Weight(items) == ItemWeight(items[0]) + ItemWeight(items[1])
    ensures |items| == 3 ==> Weight(items) == ItemWeight(items[0]) + ItemWeight(items[1]) + ItemWeight(items[2])
  {
    if |items| >= 1 { WeightConcat(items[..1], items[1..]); assert items == items[..1] + items[1..]; }
    if |items| >= 2 { WeightConcat(items[1..2], items[2..]); assert items[1..] == items[1..2] + items[2..]; }
  }

  lemma RewriteIsLighter(rest: seq<Item>)
    requires Rewrite(rest).Some?
    ensures var m := Rewrite(rest).value;
            m.size <= |rest| && Weight(m.out) < Weight(rest[..m.size])
  {
    hide Weight, RetCount, HasSideEffects, ArgCount, And, UntilTag, Pops;
    var m := Rewrite(rest).value;
    var window := rest[..m.size];
    WeightSmall(m.out);
    WeightSmall(window);
    WeightBounds([]);
    if PushPop(rest).None? && OpPop(rest).Some? {
      PureFacts(rest[0].instr);
      WeightOfPops(ArgCount(rest[0].instr));
    } else if UnreachableCode(rest).Some? && m == UnreachableCode(rest).value {
      WeightConcat([rest[0]], rest[1..m.size]);
      assert window == [rest[0]] + rest[1..m.size];
      WeightBounds(rest[1..m.size]);
    }
  }

  /** A pass either changes nothing or yields lighter code. */
  lemma {:induction false} PassIsLighter(items: seq<Item>)
    ensures Pass(items) == items || Weight(Pass(items)) < Weight(items)
  {
    hide Rewrite, Weight;
    if items != [] {
      var m := ApplyMethods(items);
      var tail := items[m.size..];
      PassIsLighter(tail);
      assert items == items[..m.size] + tail;
      WeightConcat(items[..m.size], tail);
      WeightConcat(m.out, Pass(tail));
      if Rewrite(items).Some? {
        RewriteIsLighter(items);
      } else {
        assert m.out == items[..1];
      }
    }
  }

  // ----- what a pass leaves -----

  /** Two neighbouring items that can be simplified: a value that is discarded at once, two equal swaps or
      constants, a swap that makes no difference or is absorbed, code that is not reached. */
  predicate Wasteful(a: Item, b: Item) {
    || (b == Operation(POP) && (IsRemovablePush(a) || (a.Operation? && RetCount(a.instr) == 1 && !HasSideEffects(a.instr))))
    || (a == b && (IsSwapItem(a) || a.Push?))
    || (a == Operation(SWAP1) && b.Operation? && (IsCommutative(b.instr) || b.instr == LT || b.instr == GT || b.instr == SLT || b.instr == SGT))
    || (NeverContinues(a) && !b.Tag?)
  }

  /** A jump to the next item, a mask that the position of a tag does not need, a mask of ones. */
  predicate WastefulThree(a: Item, b: Item, c: Item) {
    || (a.PushTag? && c.Tag? && a.data == c.data && (b == Operation(JUMP) || b == Operation(JUMPI)))
    || (a.PushTag? && b.Push? && And(b.data, 0xFFFFFFFF) == 0xFFFFFFFF && c == Operation(AND))
    || (a == Push(0) && b == Operation(NOT) && c == Operation(AND))
  }

  predicate WasteAt(items: seq<Item>, i: nat) {
    || (i + 1 < |items| && Wasteful(items[i], items[i + 1]))
    || (i + 2 < |items| && WastefulThree(items[i], items[i + 1], items[i + 2]))
  }

  lemma RewriteIff(rest: seq<Item>)
    ensures Rewrite(rest).Some? <==> WasteAt(rest, 0)
  {
    hide And, HasSideEffects, RetCount, ArgCount, IsCommutative, AltersControlFlow;
  }

  lemma RewriteChanges(items: seq<Item>)
    requires Rewrite(items).Some?
    ensures Pass(items) != items
  {
    hide Rewrite, Weight;
    var m := Rewrite(items).value;
    RewriteIsLighter(items);
    var rest := items[m.size..];
    PassIsLighter(rest);
    assert items == items[..m.size] + rest;
    WeightConcat(items[..m.size], rest);
    WeightConcat(m.out, Pass(rest));
  }

  /** Items that a pass does not change are those without any waste. */
  lemma {:induction false} SettledIff(items: seq<Item>)
    ensures Pass(items) == items <==> forall i | 0 <= i < |items| :: !WasteAt(items, i)
  {
    hide Rewrite, WasteAt;
    if items != [] {
      var tail := items[1..];
      RewriteIff(items);
      SettledIff(tail);
      WasteBehind(items);
      if Rewrite(items).Some? {
        RewriteChanges(items);
      } else {
        assert items == items[..1] + tail;
        assert Pass(items) == items[..1] + Pass(tail);
        assert Pass(items)[1..] == Pass(tail);
      }
    }
  }

  lemma WasteBehind(items: seq<Item>)
    requires items != []
    ensures (forall i | 0 <= i < |items| :: !WasteAt(items, i)) <==>
              !WasteAt(items, 0) && forall i | 0 <= i < |items[1..]| :: !WasteAt(items[1..], i)
  {
    hide Wasteful, WastefulThree;
    forall i | 0 <= i < |items[1..]|
      ensures WasteAt(items[1..], i) <==> WasteAt(items, i + 1)
    {
    }
    if forall i | 0 <= i < |items[1..]| :: !WasteAt(items[1..], i) {
      forall i | 1 <= i < |items|
        ensures !WasteAt(items, i)
      {
        assert !WasteAt(items[1..], i - 1);
      }
    }
  }

  // ----- the optimiser object -----

  /** Counts the items up to the next tag, as the scan in the unreachable-code method does. */
  method ScanToTag(items: seq<Item>, start: nat) returns (n: nat)
    requires start <= |items|
    ensures n == UntilTag(items[start..])
  {
    n := 0;
    while start + n != |items| && !items[start + n].Tag?
      invariant start + n <= |items|
      invariant UntilTag(items[start..]) == n + UntilTag(items[start + n..])
      decreases |items| - n
    {
      assert items[start + n..][1..] == items[start + n + 1..];
      n := n + 1;
    }
  }

  /** Tries the methods in order at one position. */
  method ApplyMethodsAt(items: seq<Item>, i: nat) returns (m: Match)
    requires i < |items|
    ensures m == ApplyMethods(items[i..])
  {
    var rest := items[i..];
    var simple := OrElse(PushPop(rest), OrElse(OpPop(rest), OrElse(DoublePush(rest), OrElse(DoubleSwap(rest),
                  OrElse(CommutativeSwap(rest), OrElse(SwapComparison(rest), JumpToNext(rest)))))));
    if simple.Some? {
      return simple.value;
    }
    if NeverContinues(rest[0]) {
      var n := ScanToTag(items, i + 1);
      assert rest[1..] == items[i + 1..];
      if n > 0 {
        return Match(1 + n, [rest[0]]);
      }
    }
    if TagConjunctions(rest).Some? {
      return TagConjunctions(rest).value;
    }
    m := if TruthyAnd(rest).Some? then TruthyAnd(rest).value else Identity(rest);
  }

  class PeepholeOptimiser {
    var items: seq<Item>
    var optimisedItems: seq<Item>

    constructor (items: seq<Item>)
      ensures this.items == items && optimisedItems == []
    {
      this.items := items;
      optimisedItems := [];
    }

    /** One pass. The result replaces the items only if it is a gain; otherwise it stays behind in
        the output buffer. */
    method Optimise() returns (changed: bool)
      modifies this
      ensures var out := old(optimisedItems) + Pass(old(items));
              && changed == Gain(old(items), out)
              && items == (if changed then out else old(items))
              && optimisedItems == (if changed then [] else out)
    {
      hide ApplyMethods, Gain;
      var i := 0;
      ghost var start := optimisedItems;
      while i < |items|
        invariant i <= |items|
        invariant items == old(items)
        invariant optimisedItems + Pass(items[i..]) == start + Pass(items)
      {
        var m := ApplyMethodsAt(items, i);
        assert items[i..][m.size..] == items[i + m.size..];
        assert optimisedItems + (m.out + Pass(items[i + m.size..])) == (optimisedItems + m.out) + Pass(items[i + m.size..]);
        optimisedItems := optimisedItems + m.out;
        i := i + m.size;
      }
      assert items[i..] == [] && optimisedItems + [] == optimisedItems;
      changed := Gain(items, optimisedItems);
      if changed {
        items := optimisedItems;
        optimisedItems := [];
      }
    }
  }

  /** Repeats the pass until it brings no gain. It always comes to an end; the number of rounds is
      bounded by the weight lost, so the guard of 64000 rounds in the original cannot be hit by
      code of fewer than 12800 items. */
  method OptimiseUntilStable(items: seq<Item>) returns (result: seq<Item>, rounds: nat)
    ensures !Gain(result, Pass(result))
    ensures rounds + Weight(result) <= Weight(items) <= 5 * |items|
    ensures rounds == 0 ==> result == items
    ensures |result| <= |items|
    ensures NothingMadeUp(items, result) && TagsOf(result) == TagsOf(items)
    ensures forall env | TagsFit(env) && DistinctTags(env, items) ::
              SameBehaviour(env, items, result) && TagsOf(result) == TagsOf(items) && DistinctTags(env, result)
  {
    hide SameBehaviour;
    var optimiser := new PeepholeOptimiser(items);
    rounds := 0;
    var changed := true;
    WeightBounds(items);
    forall env ensures SameBehaviour(env, items, items) {
      SameBehaviourReflexive(env, items);
    }
    while changed
      invariant optimiser.optimisedItems == if changed then [] else Pass(optimiser.items)
      invariant !changed ==> !Gain(optimiser.items, Pass(optimiser.items))
      invariant rounds + Weight(optimiser.items) <= Weight(items) && (rounds == 0 ==> optimiser.items == items)
      invariant |optimiser.items| <= |items|
      invariant NothingMadeUp(items, optimiser.items) && TagsOf(optimiser.items) == TagsOf(items)
      invariant forall env | TagsFit(env) && DistinctTags(env, items) ::
                  SameBehaviour(env, items, optimiser.items) && TagsOf(optimiser.items) == TagsOf(items) && DistinctTags(env, optimiser.items)
      decreases changed, Weight(optimiser.items)
    {
      ghost var current := optimiser.items;
      changed := optimiser.Optimise();
      assert [] + Pass(current) == Pass(current);
      if changed {
        PassIsLighter(current);
        PassTags(current);
        rounds := rounds + 1;
        forall env | TagsFit(env) && DistinctTags(env, items)
          ensures SameBehaviour(env, items, optimiser.items) && TagsOf(optimiser.items) == TagsOf(items) && DistinctTags(env, optimiser.items)
        {
          PassCorrect(env, current);
          SameBehaviourTransitive(env, items, current, optimiser.items);
        }
      }
    }
    result := optimiser.items;
  }
}
