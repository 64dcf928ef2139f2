/** The code generator of LLL: fragments are compiled on their own and appended to each other with
    their tags renumbered (liblll/CodeFragment.cpp:419-688, libevmasm/Assembly.cpp:38-86). */
module LllCompiler {
  import opened Wrappers
  import opened Words
  import opened Instructions
  import opened Items
  import opened Machine
  import opened Blocks
  import Rewriting
  import opened LllEval
  import opened LllCode
  import opened LllRules
  import opened LllCorrect

  datatype Error = IncorrectParameterCount | InvalidDeposit | IntegerOutOfRange | InvalidOperation | StackUnderflow | TooManyTags

  type Result<T> = Fallible<T, Error>

  /** A finished fragment. */
  datatype Code = Code(items: seq<Item>, usedTags: nat, deposit: int)

  const TAG_LIMIT: nat := 0xffff_ffff

  /** All tags have been handed out; number zero is reserved. */
  predicate TagsBelow(items: seq<Item>, usedTags: nat) {
    forall i | 0 <= i < |items| :: TagBelow(items[i], usedTags)
  }

  predicate TagBelow(item: Item, usedTags: nat) {
    item.Tag? || item.PushTag? ==> 0 < item.data < usedTags
  }

  predicate CodeOk(code: Code) {
    && 1 <= code.usedTags <= TAG_LIMIT && TagsBelow(code.items, code.usedTags) && UniqueTags(code.items)
    && Climbs(code.items) && code.deposit <= Total(code.items)
  }

  /** The fragment computes the expression, and its deposit is the number of values it leaves. */
  ghost predicate Compiled(e: Expr, code: Code) {
    CodeOk(code) && code.deposit == Dep(e) && code.usedTags == TagsNeeded(e) && Correct(e, code.items)
  }

  // ----- which expressions can be compiled -----

  /** The number of arguments is right, and so is the number of values that the arguments leave. */
  predicate ShapeOk(op: Operator, args: seq<Expr>) {
    match op
    case Instr(i) => IsFunctional(i) && |args| == ArgCount(i) && AllLeave(args)
    case Arith(i) => IsArith(i) && |args| >= 1 && AllLeaveOne(args)
    case Compare(i, _) => IsCompare(i) && |args| == 2 && AllLeaveOne(args)
    case Unary(i) => IsUnary(i) && |args| == 1 && AllLeaveOne(args)
    case If => |args| == 3 && Dep(args[0]) == 1
    case When => |args| == 2 && Dep(args[0]) == 1
    case Unless => |args| == 2 && Dep(args[0]) == 1
    case While => |args| == 2 && Dep(args[0]) == 1
    case Until => |args| == 2 && Dep(args[0]) == 1
    case For => |args| == 4 && Dep(args[1]) == 1
    case Switch => |args| >= 1 && CasesOk(args)
    case And => |args| >= 1 && AllLeaveOne(args)
    case Or => |args| >= 1 && AllLeaveOne(args)
    case Seq => true
  }

  predicate AllLeave(args: seq<Expr>) {
    forall i | 0 <= i < |args| :: Dep(args[i]) >= 1
  }

  predicate AllLeaveOne(args: seq<Expr>) {
    forall i | 0 <= i < |args| :: Dep(args[i]) == 1
  }

  /** Conditions leave one value, bodies as many as the default. */
  predicate CasesOk(args: seq<Expr>) {
    forall i | 0 <= i < |args| / 2 :: CaseOk(args, i)
  }

  predicate CaseOk(args: seq<Expr>, i: nat)
    requires i < |args| / 2
  {
    LeavesOne(args[2 * i]) && Leaves(args[2 * i + 1], DefaultDep(args))
  }

  predicate LeavesOne(e: Expr) { Dep(e) == 1 }

  predicate Leaves(e: Expr, d: int) { Dep(e) == d }

  function DefaultDep(args: seq<Expr>): nat {
    if |args| % 2 == 1 then Dep(args[|args| - 1]) else 0
  }

  predicate WellShaped(e: Expr) {
    match e
    case Literal(n) => 0 <= n < WORD_BASE
    case Node(op, args) => ShapeOk(op, args) && forall i | 0 <= i < |args| :: WellShaped(args[i])
  }

  /** How many tags the code of an expression takes, the reserved one included. */
  function TagsNeeded(e: Expr): nat {
    match e
    case Literal(_) => 1
    case Node(op, args) => 1 + OwnTags(op, |args|) + TagSum(args)
  }

  function TagSum(es: seq<Expr>): nat {
    if es == [] then 0 else TagsNeeded(es[0]) + TagSum(es[1..])
  }

  function OwnTags(op: Operator, n: nat): nat {
    match op
    case If => 2
    case When => 1
    case Unless => 1
    case While => 2
    case Until => 2
    case For => 2
    case Switch => if n < 2 then 0 else n / 2 + 1
    case And => 1
    case Or => 1
    case _ => 0
  }

  lemma {:induction false} TagSumSuffix(es: seq<Expr>, i: nat)
    requires i <= |es|
    ensures TagSum(es[i..]) <= TagSum(es)
  {
    if i == 0 {
      assert es[0..] == es;
    } else {
      TagSumSuffix(es[1..], i - 1);
      assert es[1..][i - 1..] == es[i..];
    }
  }

  /** A construct whose arguments are compiled already can be compiled, too. */
  predicate Compilable(op: Operator, args: seq<Expr>) {
    ShapeOk(op, args) && TagsNeeded(Node(op, args)) <= TAG_LIMIT
  }

  lemma FewTags(a: Expr, b: Expr, c: Expr, d: Expr)
    ensures TagSum([a]) == TagsNeeded(a)
    ensures TagSum([a, b]) == TagsNeeded(a) + TagsNeeded(b)
    ensures TagSum([a, b, c]) == TagsNeeded(a) + TagsNeeded(b) + TagsNeeded(c)
    ensures TagSum([a, b, c, d]) == TagsNeeded(a) + TagsNeeded(b) + TagsNeeded(c) + TagsNeeded(d)
  {
    hide TagsNeeded, TagSum;
    NoTagSum();
    TagSumFirst(d, []);
    TagSumFirst(c, [d]);
    TagSumFirst(b, [c, d]);
    TagSumFirst(a, [b, c, d]);
    TagSumFirst(c, []);
    TagSumFirst(b, [c]);
    TagSumFirst(a, [b, c]);
    TagSumFirst(b, []);
    TagSumFirst(a, [b]);
    TagSumFirst(a, []);
    assert [a] + [] == [a] && [b] + [] == [b] && [c] + [] == [c] && [d] + [] == [d];
    assert [a] + [b] == [a, b] && [a] + [b, c] == [a, b, c] && [a] + [b, c, d] == [a, b, c, d];
    assert [b] + [c] == [b, c] && [b] + [c, d] == [b, c, d] && [c] + [d] == [c, d];
  }

  lemma NoTagSum()
    ensures TagSum([]) == 0
  {
  }

  lemma TagSumFirst(e: Expr, es: seq<Expr>)
    ensures TagSum([e] + es) == TagsNeeded(e) + TagSum(es)
  {
    hide TagsNeeded;
    assert ([e] + es)[1..] == es;
  }

  lemma {:induction false} TagSumLast(es: seq<Expr>, e: Expr)
    ensures TagSum(es + [e]) == TagSum(es) + TagsNeeded(e)
  {
    hide TagsNeeded;
    if es == [] {
      assert [] + [e] == [e];
      assert [e][1..] == [];
    } else {
      assert (es + [e])[0] == es[0] && (es + [e])[1..] == es[1..] + [e];
      TagSumLast(es[1..], e);
    }
  }

  // ----- the deposit along the code -----

  function Total(items: seq<Item>): int {
    if items == [] then 0 else Total(items[..|items| - 1]) + Deposit(items[|items| - 1])
  }

  /** In front of every item, the items so far have not taken more than they left. */
  predicate Climbs(items: seq<Item>) {
    forall i | 0 <= i < |items| :: Total(items[..i]) >= 0
  }

  lemma TotalAppend(items: seq<Item>, item: Item)
    ensures Total(items + [item]) == Total(items) + Deposit(item)
    ensures Climbs(items) && Total(items) >= 0 ==> Climbs(items + [item])
  {
    var more := items + [item];
    assert more[..|items|] == items;
    forall i | 0 <= i < |items|
      ensures more[..i] == items[..i]
    {
    }
  }

  lemma AppendedTags(items: seq<Item>, usedTags: nat, item: Item)
    requires TagsBelow(items, usedTags) && UniqueTags(items) && TagBelow(item, usedTags)
    requires item.Tag? ==> item !in items
    ensures TagsBelow(items + [item], usedTags) && UniqueTags(items + [item])
  {
    var more := items + [item];
    forall i, j | 0 <= i < j < |more| && more[i].Tag? && more[j].Tag?
      ensures more[i].data != more[j].data
    {
      if j < |items| {
        assert items[i].data != items[j].data;
      } else {
        assert more[i] in items;
      }
    }
  }

  /** Renumbered tags are new. */
  lemma ShiftedTag(item: Item, usedTags: nat, offset: nat)
    requires TagBelow(item, usedTags) && usedTags + offset <= TAG_LIMIT
    ensures TagBelow(ShiftedItem(item, offset), usedTags + offset)
    ensures item.Tag? ==> ShiftedItem(item, offset).Tag? && ShiftedItem(item, offset).data == item.data as int + offset
    ensures ShiftedItem(item, offset).Tag? ==> item.Tag?
    ensures Deposit(ShiftedItem(item, offset)) == Deposit(item)
  {
  }

  lemma FreshTag(items: seq<Item>, usedTags: nat, t: Word)
    requires TagsBelow(items, usedTags) && t >= usedTags
    ensures Tag(t) !in items && PushTag(t) !in items
  {
    forall i | 0 <= i < |items|
      ensures items[i] != Tag(t) && items[i] != PushTag(t)
    {
      assert TagBelow(items[i], usedTags);
    }
  }

  lemma LessTags(items: seq<Item>, usedTags: nat, more: nat)
    requires TagsBelow(items, usedTags) && usedTags <= more
    ensures TagsBelow(items, more)
  {
    forall i | 0 <= i < |items|
      ensures TagBelow(items[i], more)
    {
      assert TagBelow(items[i], usedTags);
    }
  }

  class Assembly {
    var usedTags: nat
    var items: seq<Item>
    var deposit: int

    ghost predicate Valid()
      reads this
    {
      && 1 <= usedTags <= TAG_LIMIT && TagsBelow(items, usedTags) && UniqueTags(items)
      && Climbs(items) && deposit <= Total(items)
    }

    constructor ()
      ensures Valid() && usedTags == 1 && items == [] && deposit == 0
    {
      usedTags, items, deposit := 1, [], 0;
    }

    function Finished(): Code
      reads this
    {
      Code(items, usedTags, deposit)
    }

    method NewTag() returns (r: Result<Word>)
      requires Valid()
      modifies `usedTags
      ensures r.Success? <==> old(usedTags) < TAG_LIMIT
      ensures r.Success? ==> Valid() && r.value == old(usedTags) && usedTags == old(usedTags) + 1 && Tag(r.value) !in items
    {
      if usedTags >= TAG_LIMIT {
        return Failure(TooManyTags);
      }
      FreshTag(items, usedTags, usedTags);
      LessTags(items, usedTags, usedTags + 1);
      r := Success(usedTags);
      usedTags := usedTags + 1;
    }

    method Append(item: Item) returns (r: Result<()>)
      requires Valid() && TagBelow(item, usedTags) && (item.Tag? ==> item !in items)
      modifies `items, `deposit
      ensures r.Success? <==> old(deposit) >= 0
      ensures r.Success? ==> Valid() && items == old(items) + [item] && deposit == old(deposit) + Items.Deposit(item)
    {
      if deposit < 0 {
        return Failure(StackUnderflow);
      }
      AppendedTags(items, usedTags, item);
      TotalAppend(items, item);
      deposit := deposit + Items.Deposit(item);
      items := items + [item];
      r := Success(());
    }

    /** Appends a fragment; its tags get numbers that have not been used yet. */
    method AppendCode(code: Code) returns (r: Result<()>)
      requires Valid() && CodeOk(code) && deposit >= 0
      modifies this
      ensures r.Success? <==> old(usedTags) + code.usedTags <= TAG_LIMIT
      ensures r.Success? ==>
                && Valid() && items == old(items) + Shift(code.items, old(usedTags))
                && deposit == old(deposit) + code.deposit && usedTags == old(usedTags) + code.usedTags
                && KeptTags(old(items), items, old(usedTags))
    {
      hide TagsBelow, UniqueTags, Climbs, Total, KeptTags, Items.Deposit;
      if usedTags + code.usedTags > TAG_LIMIT {
        return Failure(TooManyTags);
      }
      var newDeposit, offset := deposit + code.deposit, usedTags;
      ghost var before := items;
      LessTags(items, usedTags, usedTags + code.usedTags);
      usedTags := usedTags + code.usedTags;
      var i := 0;
      NoTotal();
      assert before + [] == before && Shift(code.items, offset)[..0] == [] && code.items[..0] == [];
      while i < |code.items|
        invariant 0 <= i <= |code.items| && Valid() && usedTags == offset + code.usedTags
        invariant items == before + Shift(code.items, offset)[..i]
        invariant deposit == old(deposit) + Total(code.items[..i]) && Total(items) == Total(before) + Total(code.items[..i])
        decreases |code.items| - i
      {
        var item := ShiftedItem(code.items[i], offset);
        NextShifted(before, offset, code, i);
        TotalAppend(items, item);
        var _ := Append(item);
        i := i + 1;
      }
      assert code.items[..i] == code.items;
      assert Shift(code.items, offset)[..i] == Shift(code.items, offset);
      OldTagsKept(before, offset, code);
      deposit := newDeposit;
      r := Success(());
    }

    /** Appends a fragment and discards all but the first d of its values. */
    method AppendKeeping(code: Code, d: int) returns (r: Result<()>)
      requires Valid() && CodeOk(code) && deposit >= 0 && d >= 0
      modifies this
      ensures r.Success? <==> d <= code.deposit && old(usedTags) + code.usedTags <= TAG_LIMIT
      ensures r.Success? ==>
                && Valid() && d <= code.deposit && items == old(items) + (Shift(code.items, old(usedTags)) + Pops(code.deposit - d))
                && deposit == old(deposit) + d && usedTags == old(usedTags) + code.usedTags
                && KeptTags(old(items), items, old(usedTags))
    {
      hide TagsBelow, UniqueTags, Climbs, Total, KeptTags, Items.Deposit, Shift;
      if d > code.deposit {
        return Failure(InvalidDeposit);
      }
      var _ :- AppendCode(code);
      ghost var before := items;
      var k := d;
      while k < code.deposit
        invariant d <= k <= code.deposit && Valid() && usedTags == old(usedTags) + code.usedTags
        invariant items == before + Pops(k - d) && deposit == old(deposit) + code.deposit - (k - d)
      {
        PopDeposit();
        var _ := Append(Operation(POP));
        assert Pops(k + 1 - d) == Pops(k - d) + [Operation(POP)];
        k := k + 1;
      }
      PopsKeepTags(old(items), before, old(usedTags), code.deposit - d);
      assert items == old(items) + (Shift(code.items, old(usedTags)) + Pops(code.deposit - d));
      r := Success(());
    }

    /** Appends a jump to a tag; no tag is handed out. */
    method AppendJump(t: Word) returns (r: Result<()>)
      requires Valid() && 0 < t < usedTags
      modifies `items, `deposit
      ensures r.Success? <==> old(deposit) >= 0
      ensures r.Success? ==> Valid() && items == old(items) + JumpCode(t) && deposit == old(deposit)
    {
      var _ :- Append(PushTag(t));
      JumpDeposits();
      r := Append(Operation(JUMP));
    }

    method AppendJumpI(t: Word) returns (r: Result<()>)
      requires Valid() && 0 < t < usedTags
      modifies `items, `deposit
      ensures r.Success? <==> old(deposit) >= 0
      ensures r.Success? ==> Valid() && items == old(items) + JumpICode(t) && deposit == old(deposit) - 1
    {
      var _ :- Append(PushTag(t));
      JumpDeposits();
      r := Append(Operation(JUMPI));
    }
  }

  lemma NoTotal()
    ensures Total([]) == 0
  {
  }

  /** Appending the i-th item of a fragment is possible, and the deposit stays in step. */
  lemma NextShifted(before: seq<Item>, offset: nat, code: Code, i: nat)
    requires TagsBelow(before, offset) && CodeOk(code) && i < |code.items| && offset + code.usedTags <= TAG_LIMIT
    ensures var item := ShiftedItem(code.items[i], offset);
            && TagBelow(item, offset + code.usedTags)
            && (item.Tag? ==> item !in before + Shift(code.items, offset)[..i])
            && Total(code.items[..i + 1]) == Total(code.items[..i]) + Deposit(item)
            && Shift(code.items, offset)[..i + 1] == Shift(code.items, offset)[..i] + [item]
    ensures Total(code.items[..i]) >= 0
  {
    hide Total, UniqueTags, Deposit;
    assert TagBelow(code.items[i], code.usedTags);
    ShiftedTag(code.items[i], code.usedTags, offset);
    LessTags(before, offset, offset + code.usedTags);
    if ShiftedItem(code.items[i], offset).Tag? {
      NotYetPlaced(before, offset, code, i);
    }
    TotalAppend(code.items[..i], code.items[i]);
    assert code.items[..i + 1] == code.items[..i] + [code.items[i]];
  }

  /** The tags with small numbers are those from before. */
  predicate KeptTags(before: seq<Item>, after: seq<Item>, usedTags: nat) {
    forall i | 0 <= i < |after| && after[i].Tag? && after[i].data < usedTags :: after[i] in before
  }

  lemma NotYetPlaced(before: seq<Item>, offset: nat, code: Code, i: nat)
    requires TagsBelow(before, offset + code.usedTags) && CodeOk(code) && i < |code.items| && offset + code.usedTags <= TAG_LIMIT
    requires code.items[i].Tag? && TagsBelow(before, offset)
    ensures ShiftedItem(code.items[i], offset) !in before + Shift(code.items, offset)[..i]
  {
    var item := ShiftedItem(code.items[i], offset);
    assert TagBelow(code.items[i], code.usedTags);
    ShiftedTag(code.items[i], code.usedTags, offset);
    FreshTag(before, offset, item.data);
    forall j | 0 <= j < i
      ensures Shift(code.items, offset)[j] != item
    {
      assert TagBelow(code.items[j], code.usedTags);
      ShiftedTag(code.items[j], code.usedTags, offset);
      assert code.items[j].Tag? ==> code.items[j].data != code.items[i].data;
    }
  }

  lemma OldTagsKept(before: seq<Item>, offset: nat, code: Code)
    requires CodeOk(code) && offset + code.usedTags <= TAG_LIMIT
    ensures KeptTags(before, before + Shift(code.items, offset), offset)
  {
    var after := before + Shift(code.items, offset);
    forall i | 0 <= i < |after| && after[i].Tag? && after[i].data < offset
      ensures after[i] in before
    {
      if i >= |before| {
        var j := i - |before|;
        assert TagBelow(code.items[j], code.usedTags);
        ShiftedTag(code.items[j], code.usedTags, offset);
      }
    }
  }

  lemma PopsKeepTags(before: seq<Item>, after: seq<Item>, usedTags: nat, k: nat)
    requires KeptTags(before, after, usedTags)
    ensures KeptTags(before, after + Pops(k), usedTags)
  {
  }

  lemma PopDeposit()
    ensures Deposit(Operation(POP)) == -1
  {
  }

  lemma JumpDeposits()
    ensures Deposit(Operation(JUMP)) == -1 && Deposit(Operation(JUMPI)) == -2
    ensures Deposit(Operation(ISZERO)) == 0
  {
  }

  // ----- the constructs -----

  ghost predicate AllCompiled(es: seq<Expr>, codes: seq<Code>) {
    |es| == |codes| && forall i | 0 <= i < |es| :: Compiled(es[i], codes[i])
  }

  lemma ChildSound(e: Expr, code: Code, offset: nat)
    requires Compiled(e, code)
    ensures Sound(Child(e, code.items, offset)) && CodeOk(code) && code.deposit == Dep(e) && code.usedTags == TagsNeeded(e)
  {
    hide Correct;
  }

  /** Appends the arguments of a function, the last one first, with one value each. */
  method AppendArguments(asm: Assembly, codes: seq<Code>, exact: bool, ghost es: seq<Expr>) returns (r: Result<()>, ghost cs: seq<Child>)
    requires asm.Valid() && asm.items == [] && asm.deposit == 0 && asm.usedTags == 1 && AllCompiled(es, codes)
    modifies asm
    ensures r.Success? <==> (if exact then AllLeaveOne(es) else AllLeave(es)) && 1 + TagSum(es) <= TAG_LIMIT
    ensures r.Success? ==>
              && asm.Valid() && asm.items == ArgsCode(cs) && asm.deposit == |cs| && asm.usedTags == 1 + TagSum(es)
              && Exprs(cs) == es && AllSound(cs) && HaveValue(cs)
  {
    hide Correct, Dep, CodeOk, Kept, TagsNeeded, Climbs, Total;
    cs := [];
    assert ArgsCode([]) == [];
    var i := |codes|;
    while i > 0
      invariant 0 <= i <= |codes| && asm.Valid() && asm.items == ArgsCode(cs) && asm.deposit == |cs|
      invariant |cs| == |codes| - i && (forall j | 0 <= j < |cs| :: cs[j].expr == es[i + j])
      invariant AllSound(cs) && HaveValue(cs) && asm.usedTags == 1 + TagSum(es[i..])
      invariant forall j | i <= j < |es| :: if exact then Dep(es[j]) == 1 else Dep(es[j]) >= 1
    {
      i := i - 1;
      assert es[i..] == [es[i]] + es[i + 1..];
      TagSumSuffix(es, i);
      assert Compiled(es[i], codes[i]);
      var c := codes[i];
      if exact && c.deposit != 1 {
        return Failure(InvalidDeposit), cs;
      }
      ghost var child := Child(es[i], c.items, asm.usedTags);
      ChildSound(es[i], c, asm.usedTags);
      KeptIs(child, 1);
      r := asm.AppendKeeping(c, 1);
      if r.Failure? {
        return;
      }
      ArgsCodeCons(child, cs);
      cs := [child] + cs;
    }
    assert Exprs(cs) == es;
    assert es[0..] == es;
    r := Success(());
  }

  lemma ArgsCodeCons(c: Child, cs: seq<Child>)
    requires Sound(c) && AllSound(cs) && HaveValue(cs) && Dep(c.expr) >= 1
    ensures ArgsCode([c] + cs) == ArgsCode(cs) + Kept(c, 1)
    ensures AllSound([c] + cs) && HaveValue([c] + cs)
  {
    hide Correct, Dep, Kept;
    assert ([c] + cs)[1..] == cs;
  }

  lemma KeptIs(c: Child, d: nat)
    ensures d <= Dep(c.expr) ==> Kept(c, d) == Shift(c.items, c.offset) + Pops(Dep(c.expr) - d)
  {
    hide Dep, Shift, Pops;
  }

  method CompileInstr(op: Opcode, codes: seq<Code>, ghost es: seq<Expr>) returns (r: Result<Code>)
    requires AllCompiled(es, codes)
    ensures r.Success? <==> Compilable(Instr(op), es)
    ensures r.Success? ==> Compiled(Node(Instr(op), es), r.value)
  {
    hide Correct, ArgsCode, ArgCount, IsFunctional, AllSound, HaveValue, UniqueTags, TagsBelow, TagSum, Climbs, Total;
    if !IsFunctional(op) {
      return Failure(InvalidOperation);
    }
    if |codes| != ArgCount(op) {
      return Failure(IncorrectParameterCount);
    }
    var asm := new Assembly();
    var ok: Result<()>;
    ghost var cs: seq<Child>;
    ok, cs := AppendArguments(asm, codes, false, es);
    if ok.Failure? {
      return Failure(ok.error);
    }
    InstrDeposit(op);
    var _ := asm.Append(Operation(op));
    InstrCorrect(cs, op);
    r := Success(asm.Finished());
  }

  lemma InstrDeposit(op: Opcode)
    requires IsFunctional(op)
    ensures Deposit(Operation(op)) == RetCount(op) - ArgCount(op)
  {
    hide RetCount, ArgCount;
  }

  method CompileArith(op: Opcode, codes: seq<Code>, ghost es: seq<Expr>) returns (r: Result<Code>)
    requires AllCompiled(es, codes)
    ensures r.Success? <==> Compilable(Arith(op), es)
    ensures r.Success? ==> Compiled(Node(Arith(op), es), r.value)
  {
    hide Correct, ArgsCode, IsArith, AllSound, HaveValue, UniqueTags, TagsBelow, Deposit, TagSum, Climbs, Total;
    if !IsArith(op) {
      return Failure(InvalidOperation);
    }
    if |codes| < 1 {
      return Failure(IncorrectParameterCount);
    }
    var asm := new Assembly();
    var ok: Result<()>;
    ghost var cs: seq<Child>;
    ok, cs := AppendArguments(asm, codes, true, es);
    if ok.Failure? {
      return Failure(ok.error);
    }
    ghost var args := asm.items;
    ArithDeposit(op);
    assert args + Repeated(op, 0) == args;
    var i := 1;
    while i < |codes|
      invariant 1 <= i <= |codes| && asm.Valid() && asm.items == args + Repeated(op, i - 1) && asm.usedTags == 1 + TagSum(es)
      invariant asm.deposit == |codes| - (i - 1)
    {
      var _ := asm.Append(Operation(op));
      assert Repeated(op, i) == Repeated(op, i - 1) + [Operation(op)];
      i := i + 1;
    }
    ArithCorrect(cs, op);
    r := Success(asm.Finished());
  }

  lemma ArithDeposit(op: Opcode)
    ensures IsArith(op) || IsCompare(op) ==> Deposit(Operation(op)) == -1
    ensures IsUnary(op) ==> Deposit(Operation(op)) == 0
  {
  }

  method CompileCompare(op: Opcode, negated: bool, codes: seq<Code>, ghost es: seq<Expr>) returns (r: Result<Code>)
    requires AllCompiled(es, codes)
    ensures r.Success? <==> Compilable(Compare(op, negated), es)
    ensures r.Success? ==> Compiled(Node(Compare(op, negated), es), r.value)
  {
    hide Correct, ArgsCode, IsCompare, AllSound, HaveValue, UniqueTags, TagsBelow, Deposit, TagSum, Climbs, Total;
    if !IsCompare(op) {
      return Failure(InvalidOperation);
    }
    if |codes| != 2 {
      return Failure(IncorrectParameterCount);
    }
    var asm := new Assembly();
    var ok: Result<()>;
    ghost var cs: seq<Child>;
    ok, cs := AppendArguments(asm, codes, true, es);
    if ok.Failure? {
      return Failure(ok.error);
    }
    ghost var args := asm.items;
    ArithDeposit(op);
    JumpDeposits();
    var _ := asm.Append(Operation(op));
    if negated {
      var _ := asm.Append(Operation(ISZERO));
    }
    assert asm.items == args + ([Operation(op)] + Negation(negated));
    CompareCorrect(cs, op, negated);
    r := Success(asm.Finished());
  }

  method CompileUnary(op: Opcode, codes: seq<Code>, ghost es: seq<Expr>) returns (r: Result<Code>)
    requires AllCompiled(es, codes)
    ensures r.Success? <==> Compilable(Unary(op), es)
    ensures r.Success? ==> Compiled(Node(Unary(op), es), r.value)
  {
    hide Correct, ArgsCode, IsUnary, AllSound, HaveValue, UniqueTags, TagsBelow, Deposit, TagSum, Climbs, Total;
    if !IsUnary(op) {
      return Failure(InvalidOperation);
    }
    if |codes| != 1 {
      return Failure(IncorrectParameterCount);
    }
    var asm := new Assembly();
    var ok: Result<()>;
    ghost var cs: seq<Child>;
    ok, cs := AppendArguments(asm, codes, true, es);
    if ok.Failure? {
      return Failure(ok.error);
    }
    ArithDeposit(op);
    var _ := asm.Append(Operation(op));
    UnaryCorrect(cs, op);
    r := Success(asm.Finished());
  }

  /** Appends a condition and a jump to the tag, which is handed out in between. */
  method AppendCondition(asm: Assembly, code: Code, negated: bool, ghost e: Expr) returns (r: Result<Word>, ghost c: Child)
    requires asm.Valid() && asm.deposit >= 0 && Compiled(e, code)
    modifies asm
    ensures r.Success? <==> Dep(e) == 1 && old(asm.usedTags) + TagsNeeded(e) + 1 <= TAG_LIMIT
    ensures r.Success? ==>
              && asm.Valid() && c == Child(e, code.items, old(asm.usedTags)) && code.deposit == 1 && Dep(e) == 1 && Sound(c)
              && asm.items == old(asm.items) + CondCode(c, negated, r.value)
              && asm.deposit == old(asm.deposit)
              && asm.usedTags == old(asm.usedTags) + TagsNeeded(e) + 1 && old(asm.usedTags) < r.value as int + 1 == asm.usedTags
              && Tag(r.value) !in asm.items && KeptTags(old(asm.items), asm.items, old(asm.usedTags))
  {
    hide Correct, Dep, UniqueTags, TagsBelow, Deposit, TagsNeeded, Climbs, Total, KeptTags;
    c := Child(e, code.items, asm.usedTags);
    ghost var before, u1 := asm.items, asm.usedTags;
    ChildSound(e, code, asm.usedTags);
    if code.deposit != 1 {
      return Failure(InvalidDeposit), c;
    }
    JumpDeposits();
    var ok := asm.AppendCode(code);
    if ok.Failure? {
      return Failure(ok.error), c;
    }
    ghost var s1 := asm.items;
    if negated {
      ok := asm.Append(Operation(ISZERO));
    }
    r := asm.NewTag();
    if r.Failure? {
      return;
    }
    ok := asm.AppendJumpI(r.value);
    assert asm.items == before + CondCode(c, negated, r.value);
    CondKeepsTags(before, s1, u1, negated, r.value);
  }

  lemma CondKeepsTags(before: seq<Item>, after: seq<Item>, usedTags: nat, negated: bool, t: Word)
    requires KeptTags(before, after, usedTags)
    ensures KeptTags(before, after + JumpICode(t), usedTags) && KeptTags(before, after + [Operation(ISZERO)] + JumpICode(t), usedTags)
  {
  }

  /** Appends an expression and discards all but the first d of its values. */
  method AppendChild(asm: Assembly, code: Code, d: nat, ghost e: Expr) returns (r: Result<()>, ghost c: Child)
    requires asm.Valid() && asm.deposit >= 0 && Compiled(e, code)
    modifies asm
    ensures r.Success? <==> d <= Dep(e) && old(asm.usedTags) + TagsNeeded(e) <= TAG_LIMIT
    ensures r.Success? ==>
              && asm.Valid() && c == Child(e, code.items, old(asm.usedTags)) && Sound(c) && d <= Dep(e)
              && asm.items == old(asm.items) + Kept(c, d)
              && asm.deposit == old(asm.deposit) + d && asm.usedTags == old(asm.usedTags) + TagsNeeded(e)
              && KeptTags(old(asm.items), asm.items, old(asm.usedTags))
  {
    hide Correct, Dep, UniqueTags, TagsBelow, Kept, TagsNeeded, Climbs, Total;
    c := Child(e, code.items, asm.usedTags);
    ChildSound(e, code, asm.usedTags);
    KeptIs(c, d);
    r := asm.AppendKeeping(code, d);
  }

  /** A tag that has been handed out and was not placed is still not placed. */
  lemma StillFree(before: seq<Item>, after: seq<Item>, usedTags: nat, t: Word)
    requires KeptTags(before, after, usedTags) && t < usedTags && Tag(t) !in before
    ensures Tag(t) !in after
  {
    forall i | 0 <= i < |after|
      ensures after[i] != Tag(t)
    {
      if after[i].Tag? && after[i].data < usedTags {
        assert after[i] in before;
      }
    }
  }

  method CompileIf(codes: seq<Code>, ghost es: seq<Expr>) returns (r: Result<Code>)
    requires AllCompiled(es, codes)
    ensures r.Success? <==> Compilable(If, es)
    ensures r.Success? ==> Compiled(Node(If, es), r.value)
  {
    hide Correct, Dep, UniqueTags, TagsBelow, Kept, CondCode, JumpCode, KeptTags, TagsNeeded, TagSum, Climbs, Total, Deposit, Sound;
    if |codes| != 3 {
      return Failure(IncorrectParameterCount);
    }
    assert es == [es[0], es[1], es[2]];
    FewTags(es[0], es[1], es[2], es[0]);
    NodeTags(If, es);
    assert Compiled(es[0], codes[0]) && Compiled(es[1], codes[1]) && Compiled(es[2], codes[2]);
    var minDep := Min(codes[1].deposit, codes[2].deposit);
    var asm := new Assembly();
    var tag: Result<Word>, ok: Result<()>;
    ghost var c: Child, a: Child, b: Child;
    tag, c := AppendCondition(asm, codes[0], false, es[0]);
    if tag.Failure? {
      return Failure(tag.error);
    }
    var main, startDeposit := tag.value, asm.deposit;
    ghost var s1, u1 := asm.items, asm.usedTags;
    ok, b := AppendChild(asm, codes[2], minDep, es[2]);
    if ok.Failure? {
      return Failure(ok.error);
    }
    StillFree(s1, asm.items, u1, main);
    var end :- asm.NewTag();
    ok := asm.AppendJump(end);
    ghost var deposit := asm.deposit;
    NotInJump(main, end);
    asm.deposit := startDeposit;
    ShortDeposits();
    ok := asm.Append(Tag(main));
    ghost var s3, u3 := asm.items, asm.usedTags;
    NotInJump(end, end);
    ok, a := AppendChild(asm, codes[1], minDep, es[1]);
    if ok.Failure? {
      return Failure(ok.error);
    }
    StillFree(s3, asm.items, u3, end);
    ok := asm.Append(Tag(end));
    assert asm.deposit == deposit;
    assert asm.items == IfCode(c, a, b, minDep, main, end);
    IfCorrect(c, a, b, main, end);
    IfDeposit(es[0], es[1], es[2]);
    r := Success(asm.Finished());
  }

  lemma NodeTags(op: Operator, es: seq<Expr>)
    ensures TagsNeeded(Node(op, es)) == 1 + OwnTags(op, |es|) + TagSum(es)
  {
  }

  lemma NotInJump(t: Word, u: Word)
    ensures Tag(t) !in JumpCode(u)
  {
  }

  lemma IfDeposit(c: Expr, a: Expr, b: Expr)
    ensures Dep(Node(If, [c, a, b])) == Min(Dep(a), Dep(b))
  {
    var args := [c, a, b];
    assert args[1] == a && args[2] == b;
  }

  method CompileWhen(negated: bool, codes: seq<Code>, ghost es: seq<Expr>) returns (r: Result<Code>)
    requires AllCompiled(es, codes)
    ensures r.Success? <==> Compilable(if negated then When else Unless, es)
    ensures r.Success? ==> Compiled(Node(if negated then When else Unless, es), r.value)
  {
    hide Correct, UniqueTags, TagsBelow, Kept, CondCode, KeptTags, TagsNeeded, TagSum, Climbs, Total, Deposit, Sound;
    if |codes| != 2 {
      return Failure(IncorrectParameterCount);
    }
    assert es == [es[0], es[1]];
    FewTags(es[0], es[1], es[0], es[0]);
    NodeTags(if negated then When else Unless, es);
    assert Compiled(es[0], codes[0]) && Compiled(es[1], codes[1]);
    var asm := new Assembly();
    var tag: Result<Word>, ok: Result<()>;
    ghost var c: Child, a: Child;
    tag, c := AppendCondition(asm, codes[0], negated, es[0]);
    if tag.Failure? {
      return Failure(tag.error);
    }
    ghost var s1, u1 := asm.items, asm.usedTags;
    ok, a := AppendChild(asm, codes[1], 0, es[1]);
    if ok.Failure? {
      return Failure(ok.error);
    }
    StillFree(s1, asm.items, u1, tag.value);
    ShortDeposits();
    ok := asm.Append(Tag(tag.value));
    assert asm.items == WhenCode(c, a, negated, tag.value);
    WhenCorrect(c, a, negated, tag.value);
    r := Success(asm.Finished());
  }

  /** Appends a loop whose steps are the given expressions. */
  method AppendLoop(asm: Assembly, cond: Code, whileTrue: bool, steps: seq<Code>, ghost e: Expr, ghost es: seq<Expr>)
    returns (r: Result<()>, ghost c: Child, ghost cs: seq<Child>, ghost begin: Word, ghost end: Word)
    requires asm.Valid() && asm.deposit >= 0 && Compiled(e, cond) && AllCompiled(es, steps)
    modifies asm
    ensures r.Success? <==> Dep(e) == 1 && old(asm.usedTags) + 2 + TagsNeeded(e) + TagSum(es) <= TAG_LIMIT
    ensures r.Success? ==>
              && asm.Valid() && c.expr == e && Exprs(cs) == es && Sound(c) && AllSound(cs) && Dep(e) == 1
              && asm.items == old(asm.items) + LoopCode(c, whileTrue, cs, begin, end)
              && asm.deposit == old(asm.deposit) && asm.usedTags == old(asm.usedTags) + 2 + TagsNeeded(e) + TagSum(es)
  {
    hide Correct, Dep, UniqueTags, TagsBelow, Kept, CondCode, KeptTags, StepsCode, JumpCode, TagsNeeded, TagSum, Climbs, Total, Deposit, Sound;
    ShortDeposits();
    c, cs, begin, end := Child(e, [], 0), [], 0, 0;
    var first := asm.NewTag();
    if first.Failure? {
      return Failure(first.error), c, cs, begin, end;
    }
    begin := first.value;
    r := asm.Append(Tag(first.value));
    var last: Result<Word>;
    last, c := AppendCondition(asm, cond, whileTrue, e);
    if last.Failure? {
      return Failure(last.error), c, cs, begin, end;
    }
    end := last.value;
    r, cs := AppendSteps(asm, steps, last.value, es);
    if r.Failure? {
      return;
    }
    r := asm.AppendJump(first.value);
    NotInJump(end, begin);
    r := asm.Append(Tag(last.value));
    LoopItems(old(asm.items), c, whileTrue, cs, begin, end);
  }

  lemma LoopItems(before: seq<Item>, c: Child, whileTrue: bool, cs: seq<Child>, begin: Word, end: Word)
    ensures before + [Tag(begin)] + CondCode(c, whileTrue, end) + StepsCode(cs) + JumpCode(begin) + [Tag(end)] ==
            before + LoopCode(c, whileTrue, cs, begin, end)
  {
    hide CondCode, StepsCode, JumpCode;
  }

  method AppendSteps(asm: Assembly, steps: seq<Code>, ghost free: Word, ghost es: seq<Expr>) returns (r: Result<()>, ghost cs: seq<Child>)
    requires asm.Valid() && asm.deposit >= 0 && AllCompiled(es, steps) && free < asm.usedTags && Tag(free) !in asm.items
    modifies asm
    ensures r.Success? <==> old(asm.usedTags) + TagSum(es) <= TAG_LIMIT
    ensures r.Success? ==>
              && asm.Valid() && Exprs(cs) == es && AllSound(cs) && asm.items == old(asm.items) + StepsCode(cs)
              && asm.deposit == old(asm.deposit) && asm.usedTags == old(asm.usedTags) + TagSum(es) && Tag(free) !in asm.items
  {
    hide Correct, Dep, UniqueTags, TagsBelow, Kept, KeptTags, TagsNeeded, Climbs, Total;
    cs := [];
    assert asm.items == old(asm.items) + StepsCode(cs);
    assert es[0..] == es;
    var i := 0;
    while i < |steps|
      invariant 0 <= i <= |steps| && asm.Valid() && old(asm.usedTags) <= asm.usedTags && Tag(free) !in asm.items
      invariant asm.usedTags + TagSum(es[i..]) == old(asm.usedTags) + TagSum(es)
      invariant |cs| == i && (forall j | 0 <= j < i :: cs[j].expr == es[j]) && AllSound(cs)
      invariant asm.items == old(asm.items) + StepsCode(cs) && asm.deposit == old(asm.deposit)
    {
      assert Compiled(es[i], steps[i]);
      ghost var s1, u1 := asm.items, asm.usedTags;
      ghost var c: Child;
      assert es[i..] == [es[i]] + es[i + 1..];
      r, c := AppendChild(asm, steps[i], 0, es[i]);
      if r.Failure? {
        return;
      }
      StillFree(s1, asm.items, u1, free);
      StepsAppend(cs, c);
      SoundAppend(cs, c);
      cs := cs + [c];
      i := i + 1;
    }
    assert Exprs(cs) == es;
    r := Success(());
  }

  lemma {:induction false} StepsAppend(cs: seq<Child>, c: Child)
    ensures StepsCode(cs + [c]) == StepsCode(cs) + Kept(c, 0)
  {
    hide Kept;
    if cs == [] {
      assert [] + [c] == [c];
      assert [c][1..] == [];
    } else {
      assert (cs + [c])[0] == cs[0] && (cs + [c])[1..] == cs[1..] + [c];
      StepsAppend(cs[1..], c);
    }
  }

  lemma SoundAppend(cs: seq<Child>, c: Child)
    requires AllSound(cs) && Sound(c)
    ensures AllSound(cs + [c])
  {
    hide Sound;
  }

  method CompileWhile(whileTrue: bool, codes: seq<Code>, ghost es: seq<Expr>) returns (r: Result<Code>)
    requires AllCompiled(es, codes)
    ensures r.Success? <==> Compilable(if whileTrue then While else Until, es)
    ensures r.Success? ==> Compiled(Node(if whileTrue then While else Until, es), r.value)
  {
    hide Correct, UniqueTags, TagsBelow, LoopCode, TagsNeeded, TagSum, Climbs, Total;
    if |codes| != 2 {
      return Failure(IncorrectParameterCount);
    }
    assert es == [es[0], es[1]];
    FewTags(es[0], es[1], es[0], es[0]);
    FewTags(es[1], es[0], es[0], es[0]);
    NodeTags(if whileTrue then While else Until, es);
    assert Compiled(es[0], codes[0]) && Compiled(es[1], codes[1]);
    var asm := new Assembly();
    var ok: Result<()>;
    ghost var c: Child, cs: seq<Child>, begin: Word, end: Word;
    assert AllCompiled([es[1]], [codes[1]]);
    ok, c, cs, begin, end := AppendLoop(asm, codes[0], whileTrue, [codes[1]], es[0], [es[1]]);
    if ok.Failure? {
      return Failure(ok.error);
    }
    assert cs == [cs[0]] && Sound(cs[0]) && Exprs(cs)[0] == es[1];
    WhileCorrect(c, cs[0], whileTrue, begin, end);
    assert asm.items == LoopCode(c, whileTrue, [cs[0]], begin, end);
    r := Success(asm.Finished());
  }

  method CompileFor(codes: seq<Code>, ghost es: seq<Expr>) returns (r: Result<Code>)
    requires AllCompiled(es, codes)
    ensures r.Success? <==> Compilable(For, es)
    ensures r.Success? ==> Compiled(Node(For, es), r.value)
  {
    hide Correct, UniqueTags, TagsBelow, LoopCode, Kept, KeptTags, TagsNeeded, TagSum, Climbs, Total;
    if |codes| != 4 {
      return Failure(IncorrectParameterCount);
    }
    assert es == [es[0], es[1], es[2], es[3]];
    FewTags(es[0], es[1], es[2], es[3]);
    FewTags(es[3], es[2], es[0], es[0]);
    NodeTags(For, es);
    assert Compiled(es[0], codes[0]) && Compiled(es[1], codes[1]) && Compiled(es[2], codes[2]) && Compiled(es[3], codes[3]);
    var asm := new Assembly();
    var ok: Result<()>;
    ghost var init: Child, c: Child, cs: seq<Child>, begin: Word, end: Word;
    if codes[1].deposit != 1 {
      return Failure(InvalidDeposit);
    }
    ok, init := AppendChild(asm, codes[0], 0, es[0]);
    if ok.Failure? {
      return Failure(ok.error);
    }
    assert AllCompiled([es[3], es[2]], [codes[3], codes[2]]);
    ok, c, cs, begin, end := AppendLoop(asm, codes[1], true, [codes[3], codes[2]], es[1], [es[3], es[2]]);
    if ok.Failure? {
      return Failure(ok.error);
    }
    assert cs == [cs[0], cs[1]] && Sound(cs[0]) && Sound(cs[1]) && Exprs(cs)[0] == es[3] && Exprs(cs)[1] == es[2];
    ForCorrect(init, c, cs[1], cs[0], begin, end);
    assert asm.items == ForCode(init, c, cs[1], cs[0], begin, end);
    r := Success(asm.Finished());
  }

  method CompileSeq(codes: seq<Code>, ghost es: seq<Expr>) returns (r: Result<Code>)
    requires AllCompiled(es, codes)
    ensures r.Success? <==> Compilable(Seq, es)
    ensures r.Success? ==> Compiled(Node(Seq, es), r.value)
  {
    hide Correct, Dep, UniqueTags, TagsBelow, Kept, KeptTags, Whole, TagsNeeded, Climbs, Total;
    var asm := new Assembly();
    ghost var cs: seq<Child> := [];
    var i := 0;
    NodeTags(Seq, es);
    assert es[0..] == es;
    while i < |codes|
      invariant 0 <= i <= |codes| && asm.usedTags + TagSum(es[i..]) == 1 + TagSum(es)
      invariant asm.Valid() && |cs| == i && (forall j | 0 <= j < i :: cs[j].expr == es[j]) && AllSound(cs)
      invariant i < |codes| ==> asm.items == StepsCode(cs) && asm.deposit == 0
      invariant i == |codes| ==> asm.items == SeqCode(cs) && asm.deposit == if cs == [] then 0 else Dep(cs[|cs| - 1].expr)
    {
      assert Compiled(es[i], codes[i]);
      assert es[i..] == [es[i]] + es[i + 1..];
      ghost var c: Child;
      if i + 1 < |codes| {
        var ok: Result<()>;
        ok, c := AppendChild(asm, codes[i], 0, es[i]);
        if ok.Failure? {
          return Failure(ok.error);
        }
        StepsAppend(cs, c);
      } else {
        c := Child(es[i], codes[i].items, asm.usedTags);
        ChildSound(es[i], codes[i], asm.usedTags);
        WholeIs(c);
        var _ :- asm.AppendCode(codes[i]);
        SeqLast(cs, c);
      }
      SoundAppend(cs, c);
      cs := cs + [c];
      i := i + 1;
    }
    assert Exprs(cs) == es;
    SeqCorrect(cs);
    SeqDeposit(cs);
    r := Success(asm.Finished());
  }

  lemma WholeIs(c: Child)
    ensures Whole(c) == Shift(c.items, c.offset)
  {
  }

  lemma {:induction false} SeqLast(cs: seq<Child>, c: Child)
    ensures SeqCode(cs + [c]) == StepsCode(cs) + Whole(c)
  {
    hide Kept, Whole;
    if cs == [] {
      assert [] + [c] == [c];
    } else {
      assert (cs + [c])[0] == cs[0] && (cs + [c])[1..] == cs[1..] + [c];
      SeqLast(cs[1..], c);
    }
  }

  lemma SeqDeposit(cs: seq<Child>)
    ensures Dep(Node(Seq, Exprs(cs))) == if cs == [] then 0 else Dep(cs[|cs| - 1].expr)
  {
    if cs != [] {
      assert Exprs(cs)[|cs| - 1] == cs[|cs| - 1].expr;
    }
  }

  /** && and ||; `stopAt` is the truth value that decides early. */
  method CompileShort(stopAt: bool, codes: seq<Code>, ghost es: seq<Expr>) returns (r: Result<Code>)
    requires AllCompiled(es, codes)
    ensures r.Success? <==> Compilable(if stopAt then Or else And, es)
    ensures r.Success? ==> Compiled(Node(if stopAt then Or else And, es), r.value)
  {
    hide Correct, Dep, UniqueTags, TagsBelow, Kept, KeptTags, CondCode, ShortTail, ShortCode, FrontCode, AllSound, Deposit, TagsNeeded, TagSum, Climbs, Total, Sound, Compiled;
    NodeTags(if stopAt then Or else And, es);
    if |codes| < 1 {
      return Failure(IncorrectParameterCount);
    }
    CompiledDeposits(es, codes);
    if exists i | 0 <= i < |codes| :: codes[i].deposit != 1 {
      return Failure(InvalidDeposit);
    }
    var asm := new Assembly();
    var tag := asm.NewTag();
    var ok: Result<()>;
    ghost var cs: seq<Child>;
    ok, cs := AppendShort(asm, stopAt, codes, tag.value, es);
    if ok.Failure? {
      return Failure(ok.error);
    }
    ShortFinished(cs, stopAt, tag.value);
    r := Success(asm.Finished());
    NowCompiled(Node(if stopAt then Or else And, es), r.value);
  }

  /** All arguments, in which every value but the last can end the evaluation. */
  method AppendShort(asm: Assembly, stopAt: bool, codes: seq<Code>, end: Word, ghost es: seq<Expr>) returns (r: Result<()>, ghost cs: seq<Child>)
    requires asm.Valid() && asm.items == [] && asm.deposit == 0 && 0 < end < asm.usedTags
    requires AllCompiled(es, codes) && codes != [] && forall i | 0 <= i < |codes| :: codes[i].deposit == 1
    modifies asm
    ensures r.Success? <==> old(asm.usedTags) + TagSum(es) <= TAG_LIMIT
    ensures r.Success? ==>
              && asm.Valid() && asm.usedTags == old(asm.usedTags) + TagSum(es) && asm.deposit == 1
              && Exprs(cs) == es && AllSound(cs) && OneValueEach(cs) && asm.items == ShortCode(cs, stopAt, end)
  {
    hide Correct, Dep, UniqueTags, TagsBelow, Kept, KeptTags, CondCode, ShortTail, ShortCode, FrontCode, AllSound, Deposit, TagsNeeded, TagSum, Climbs, Total, Sound, Compiled;
    var n := |codes| - 1;
    assert es == es[..n] + [es[n]];
    TagSumLast(es[..n], es[n]);
    NoTagSum();
    r, cs := AppendTests(asm, stopAt, codes, end, es);
    if r.Failure? {
      return;
    }
    assert Compiled(es[n], codes[n]);
    CompiledDeposit(es[n], codes[n]);
    ghost var s1, u1, c: Child := asm.items, asm.usedTags, Child(es[n], [], 0);
    r, c := AppendChild(asm, codes[n], 1, es[n]);
    if r.Failure? {
      return;
    }
    StillFree(s1, asm.items, u1, end);
    ShortDeposits();
    r := asm.Append(Tag(end));
    assert s1 == [] ==> s1 + Kept(c, 1) == Kept(c, 1);
    ShortWhole(cs, c, stopAt, end);
    SoundAppend(cs, c);
    cs := cs + [c];
    assert Exprs(cs) == es;
  }

  lemma ShortFinished(cs: seq<Child>, stopAt: bool, end: Word)
    requires AllSound(cs) && OneValueEach(cs) && cs != []
    ensures Correct(Node(if stopAt then Or else And, Exprs(cs)), ShortCode(cs, stopAt, end))
    ensures Dep(Node(if stopAt then Or else And, Exprs(cs))) == 1
  {
    hide Correct, Dep, Sound, ShortCode;
    ShortCorrect(cs, stopAt, end);
    ShortDep(cs, stopAt);
  }

  lemma NowCompiled(e: Expr, code: Code)
    requires CodeOk(code) && code.deposit == Dep(e) && code.usedTags == TagsNeeded(e) && Correct(e, code.items)
    ensures Compiled(e, code)
  {
  }

  lemma CompiledDeposits(es: seq<Expr>, codes: seq<Code>)
    requires AllCompiled(es, codes)
    ensures forall i | 0 <= i < |es| :: codes[i].deposit == Dep(es[i])
  {
    hide Dep;
    forall i | 0 <= i < |es|
      ensures codes[i].deposit == Dep(es[i])
    {
      CompiledDeposit(es[i], codes[i]);
    }
  }

  /** All arguments but the last, each with a jump to the end. */
  method AppendTests(asm: Assembly, stopAt: bool, codes: seq<Code>, end: Word, ghost es: seq<Expr>) returns (r: Result<()>, ghost cs: seq<Child>)
    requires asm.Valid() && asm.items == [] && asm.deposit == 0 && 0 < end < asm.usedTags
    requires AllCompiled(es, codes) && codes != [] && forall i | 0 <= i < |codes| :: codes[i].deposit == 1
    modifies asm
    ensures r.Success? <==> |codes| == 1 || old(asm.usedTags) + TagSum(es[..|es| - 1]) <= TAG_LIMIT
    ensures r.Success? ==>
              && asm.Valid() && asm.usedTags == old(asm.usedTags) + TagSum(es[..|es| - 1])
              && asm.usedTags > end && Tag(end) !in asm.items && asm.deposit == 0
              && |cs| == |codes| - 1 && (forall j | 0 <= j < |cs| :: cs[j].expr == es[j]) && AllSound(cs) && OneValueEach(cs)
              && asm.items == if |codes| == 1 then [] else [Push(Bool(stopAt))] + FrontCode(cs, stopAt, end) + [Operation(POP)]
  {
    hide Correct, Dep, UniqueTags, TagsBelow, CondCode, Deposit, TagsNeeded, TagSum, FrontCode, Climbs, Total, Compiled, Sound;
    NoTagSum();
    NoFront(stopAt, end);
    cs := [];
    r := Success(());
    ghost var front := es[..|es| - 1];
    assert front[0..] == front;
    if |codes| == 1 {
      assert front == [];
      return;
    }
    ShortDeposits();
    ghost var push := [Push(Bool(stopAt))];
    r := asm.Append(Push(Bool(stopAt)));
    assert push + FrontCode(cs, stopAt, end) == push;
    var i := 1;
    while i < |codes|
      invariant 1 <= i <= |codes| && asm.Valid() && old(asm.usedTags) <= asm.usedTags && Tag(end) !in asm.items
      invariant asm.usedTags + TagSum(front[i - 1..]) == old(asm.usedTags) + TagSum(front)
      invariant |cs| == i - 1 && (forall j | 0 <= j < |cs| :: cs[j].expr == es[j]) && AllSound(cs) && OneValueEach(cs)
      invariant asm.items == push + FrontCode(cs, stopAt, end) && asm.deposit == 1
    {
      assert Compiled(es[i - 1], codes[i - 1]);
      assert front[i - 1..] == [es[i - 1]] + front[i..];
      TagSumFirst(es[i - 1], front[i..]);
      ghost var c: Child;
      r, c := AppendTest(asm, codes[i - 1], !stopAt, end, es[i - 1]);
      if r.Failure? {
        return;
      }
      FrontAppend(cs, c, stopAt, end);
      SoundAppend(cs, c);
      cs := cs + [c];
      i := i + 1;
    }
    assert front[i - 1..] == [];
    r := asm.Append(Operation(POP));
  }

  lemma NoFront(stopAt: bool, end: Word)
    ensures FrontCode([], stopAt, end) == []
  {
  }

  lemma CompiledDeposit(e: Expr, code: Code)
    requires Compiled(e, code)
    ensures code.deposit == Dep(e)
  {
  }

  lemma ShortDep(cs: seq<Child>, stopAt: bool)
    ensures Dep(Node(if stopAt then Or else And, Exprs(cs))) == 1
  {
  }

  lemma ShortDeposits()
    ensures forall w :: Deposit(Push(w)) == 1
    ensures Deposit(Operation(POP)) == -1
    ensures forall t :: Deposit(Tag(t)) == 0
  {
  }

  /** Appends one value and a jump to an existing tag. */
  method AppendTest(asm: Assembly, code: Code, negated: bool, end: Word, ghost e: Expr) returns (r: Result<()>, ghost c: Child)
    requires asm.Valid() && asm.deposit >= 0 && Compiled(e, code) && code.deposit == 1 && 0 < end < asm.usedTags && Tag(end) !in asm.items
    modifies asm
    ensures r.Success? <==> old(asm.usedTags) + TagsNeeded(e) <= TAG_LIMIT
    ensures r.Success? ==>
              && asm.Valid() && c.expr == e && Sound(c) && Dep(e) == 1 && asm.items == old(asm.items) + CondCode(c, negated, end)
              && asm.deposit == old(asm.deposit) && asm.usedTags == old(asm.usedTags) + TagsNeeded(e) && Tag(end) !in asm.items
  {
    hide Correct, Dep, UniqueTags, TagsBelow, KeptTags, Deposit, TagsNeeded, Climbs, Total;
    JumpDeposits();
    ghost var s1, u1 := asm.items, asm.usedTags;
    c := Child(e, code.items, asm.usedTags);
    ChildSound(e, code, asm.usedTags);
    r := asm.AppendKeeping(code, 1);
    if r.Failure? {
      return;
    }
    StillFree(s1, asm.items, u1, end);
    assert Pops(0) == [];
    if negated {
      r := asm.Append(Operation(ISZERO));
    }
    r := asm.AppendJumpI(end);
    assert asm.items == old(asm.items) + CondCode(c, negated, end);
    assert Tag(end) !in JumpICode(end);
  }

  /** The tests of all arguments but the last. */
  function FrontCode(cs: seq<Child>, stopAt: bool, end: Word): seq<Item> {
    if cs == [] then [] else CondCode(cs[0], !stopAt, end) + FrontCode(cs[1..], stopAt, end)
  }

  lemma {:induction false} FrontAppend(cs: seq<Child>, c: Child, stopAt: bool, end: Word)
    ensures FrontCode(cs + [c], stopAt, end) == FrontCode(cs, stopAt, end) + CondCode(c, !stopAt, end)
  {
    hide CondCode;
    if cs == [] {
      assert [] + [c] == [c];
      assert [c][1..] == [];
    } else {
      assert (cs + [c])[0] == cs[0] && (cs + [c])[1..] == cs[1..] + [c];
      FrontAppend(cs[1..], c, stopAt, end);
    }
  }

  lemma {:induction false} FrontThenLast(cs: seq<Child>, c: Child, stopAt: bool, end: Word)
    ensures ShortTail(cs + [c], stopAt, end) == FrontCode(cs, stopAt, end) + [Operation(POP)] + Kept(c, 1)
  {
    hide CondCode, Kept;
    if cs == [] {
      assert [] + [c] == [c];
    } else {
      assert (cs + [c])[0] == cs[0] && (cs + [c])[1..] == cs[1..] + [c];
      FrontThenLast(cs[1..], c, stopAt, end);
      var cond, front, pop := CondCode(cs[0], !stopAt, end), FrontCode(cs[1..], stopAt, end), [Operation(POP)];
      assert cond + (front + pop + Kept(c, 1)) == cond + front + pop + Kept(c, 1);
    }
  }

  lemma ShortWhole(cs: seq<Child>, c: Child, stopAt: bool, end: Word)
    ensures ShortCode(cs + [c], stopAt, end) ==
            (if cs == [] then Kept(c, 1) else [Push(Bool(stopAt))] + FrontCode(cs, stopAt, end) + [Operation(POP)] + Kept(c, 1)) + [Tag(end)]
  {
    hide CondCode, Kept, ShortTail, FrontCode;
    FrontThenLast(cs, c, stopAt, end);
    if cs == [] {
      assert [] + [c] == [c];
    } else {
      assert [Push(Bool(stopAt))] + (FrontCode(cs, stopAt, end) + [Operation(POP)] + Kept(c, 1)) ==
             [Push(Bool(stopAt))] + FrontCode(cs, stopAt, end) + [Operation(POP)] + Kept(c, 1);
    }
  }

  // ----- SWITCH -----

  /** The tags of the conditions and of the bodies. */
  function CondTags(es: seq<Expr>): nat {
    if |es| < 2 then 0 else TagsNeeded(es[0]) + CondTags(es[2..])
  }

  function BodyTags(es: seq<Expr>): nat {
    if |es| < 2 then 0 else TagsNeeded(es[1]) + BodyTags(es[2..])
  }

  function DefaultTags(es: seq<Expr>): nat {
    if |es| % 2 == 1 then TagsNeeded(es[|es| - 1]) else 0
  }

  lemma {:induction false} SwitchTags(es: seq<Expr>)
    ensures TagSum(es) == CondTags(es) + BodyTags(es) + DefaultTags(es)
  {
    hide TagsNeeded;
    if |es| == 1 {
      assert es[1..] == [];
    } else if |es| >= 2 {
      SwitchTags(es[2..]);
      assert es[1..][1..] == es[2..];
    }
  }

  lemma {:induction false} BodyTagsSuffix(es: seq<Expr>, i: nat)
    requires 2 * i <= |es|
    ensures BodyTags(es[2 * i..]) <= BodyTags(es)
  {
    hide TagsNeeded;
    if i == 0 {
      assert es[0..] == es;
    } else {
      BodyTagsSuffix(es[2..], i - 1);
      assert es[2..][2 * (i - 1)..] == es[2 * i..];
    }
  }

  lemma NextPair(es: seq<Expr>, i: nat)
    requires i + 2 <= |es|
    ensures CondTags(es[i..]) == TagsNeeded(es[i]) + CondTags(es[i + 2..])
    ensures BodyTags(es[i..]) == TagsNeeded(es[i + 1]) + BodyTags(es[i + 2..])
  {
    hide TagsNeeded;
    assert es[i..][2..] == es[i + 2..];
  }

  method CompileSwitch(codes: seq<Code>, ghost es: seq<Expr>) returns (r: Result<Code>)
    requires AllCompiled(es, codes)
    ensures r.Success? <==> Compilable(Switch, es)
    ensures r.Success? ==> Compiled(Node(Switch, es), r.value)
  {
    hide Correct, Dep, UniqueTags, TagsBelow, CondsCode, BodiesCode, Whole, Deposit, SwitchArgs, JumpCode, TagsNeeded, TagSum, Climbs, Total, CondTags, BodyTags, Compiled, CasesOk, CondsLeaveOne, BodiesLeave, Sound, AllFree, CondOf, BodyOf;
    if |codes| < 1 {
      return Failure(IncorrectParameterCount);
    }
    NodeTags(Switch, es);
    SwitchTags(es);
    CasesAre(es);
    CompiledDeposits(es, codes);
    var hasDefault := |codes| % 2 == 1;
    var targetDeposit := if hasDefault then codes[|codes| - 1].deposit else 0;
    var asm := new Assembly();
    var tags: Result<seq<Word>>;
    ghost var conds: seq<Child>;
    tags, conds := AppendConditions(asm, codes, es);
    if tags.Failure? {
      return Failure(tags.error);
    }
    ghost var default: Option<Child> := None;
    ghost var start := asm.items;
    if hasDefault {
      ghost var last := |codes| - 1;
      assert Compiled(es[last], codes[last]);
      default := Some(Child(es[last], codes[last].items, asm.usedTags));
      ChildSound(es[last], codes[last], asm.usedTags);
      WholeIs(default.value);
      ghost var u1 := asm.usedTags;
      var _ :- asm.AppendCode(codes[|codes| - 1]);
      AllStillFree(start, asm.items, u1, asm.usedTags, tags.value);
    }
    ghost var bodies: seq<Child>, end: Word;
    assert asm.items == start + DefaultCode(default);
    var ok: Result<()>;
    ok, bodies, end := AppendBodies(asm, codes, tags.value, targetDeposit, es);
    if ok.Failure? {
      return Failure(ok.error);
    }
    asm.deposit := targetDeposit;
    ghost var cases := MakeCases(conds, bodies, tags.value);
    SwitchIs(conds, bodies, tags.value, default, targetDeposit, es);
    SwitchItems(conds, bodies, tags.value, default, end, asm.items);
    SwitchCorrect(cases, default, targetDeposit, end);
    SwitchDeposit(cases, default, targetDeposit);
    r := Success(asm.Finished());
    NowCompiled(Node(Switch, es), r.value);
  }

  lemma CasesAre(es: seq<Expr>)
    ensures CasesOk(es) <==> CondsLeaveOne(es) && BodiesLeave(es, DefaultDep(es))
  {
    hide Dep, DefaultDep, LeavesOne, Leaves, CaseOk, CondLeavesOne, BodyLeaves;
    forall i | 0 <= i < |es| / 2
      ensures CaseOk(es, i) <==> CondLeavesOne(es, i) && BodyLeaves(es, DefaultDep(es), i)
    {
      CaseIs(es, i);
    }
  }

  lemma CaseIs(es: seq<Expr>, i: nat)
    requires i < |es| / 2
    ensures CaseOk(es, i) <==> CondLeavesOne(es, i) && BodyLeaves(es, DefaultDep(es), i)
  {
    hide Dep, DefaultDep, LeavesOne, Leaves;
  }

  /** The tags have been handed out and are not placed yet. */
  predicate AllFree(tags: seq<Word>, items: seq<Item>, usedTags: nat) {
    && (forall i | 0 <= i < |tags| :: 0 < tags[i] < usedTags && Tag(tags[i]) !in items)
    && (forall i, j | 0 <= i < j < |tags| :: tags[i] != tags[j])
  }

  lemma AllStillFree(before: seq<Item>, after: seq<Item>, usedTags: nat, more: nat, tags: seq<Word>)
    requires KeptTags(before, after, usedTags) && AllFree(tags, before, usedTags) && usedTags <= more
    ensures AllFree(tags, after, more)
  {
    hide KeptTags;
    forall i | 0 <= i < |tags|
      ensures Tag(tags[i]) !in after
    {
      StillFree(before, after, usedTags, tags[i]);
    }
  }

  /** The i-th condition and the i-th body of a SWITCH. */
  ghost predicate CondOf(c: Child, es: seq<Expr>, i: nat) {
    2 * i < |es| && c.expr == es[2 * i] && Sound(c) && Dep(c.expr) == 1
  }

  ghost predicate BodyOf(c: Child, es: seq<Expr>, i: nat, d: int) {
    2 * i + 1 < |es| && c.expr == es[2 * i + 1] && Sound(c) && Dep(c.expr) == d
  }

  predicate CondsLeaveOne(es: seq<Expr>) {
    forall i | 0 <= i < |es| / 2 :: CondLeavesOne(es, i)
  }

  predicate CondLeavesOne(es: seq<Expr>, i: nat)
    requires i < |es| / 2
  {
    LeavesOne(es[2 * i])
  }

  method AppendConditions(asm: Assembly, codes: seq<Code>, ghost es: seq<Expr>) returns (r: Result<seq<Word>>, ghost conds: seq<Child>)
    requires asm.Valid() && asm.items == [] && asm.deposit == 0 && AllCompiled(es, codes) && codes != []
    modifies asm
    ensures r.Success? <==> CondsLeaveOne(es) && old(asm.usedTags) + CondTags(es) + |es| / 2 <= TAG_LIMIT
    ensures r.Success? ==>
              && asm.Valid() && asm.usedTags == old(asm.usedTags) + CondTags(es) + |es| / 2
              && asm.deposit == 0 && |conds| == |r.value| == |codes| / 2
              && (forall i | 0 <= i < |conds| :: CondOf(conds[i], es, i))
              && asm.items == CondsCode(MakeCases(conds, conds, r.value))
              && AllFree(r.value, asm.items, asm.usedTags)
  {
    hide Correct, Dep, UniqueTags, TagsBelow, CondCode, KeptTags, Sound, TagsNeeded, Climbs, Total, CondTags, Compiled;
    conds := [];
    var tags: seq<Word> := [];
    var i := 0;
    assert es[0..] == es;
    while i < |codes| - 1
      invariant 0 <= i <= |codes| && i % 2 == 0 && |conds| == |tags| == i / 2
      invariant asm.Valid() && asm.deposit == 0
      invariant asm.usedTags + CondTags(es[i..]) + (|es| - i) / 2 == old(asm.usedTags) + CondTags(es) + |es| / 2
      invariant forall j | 0 <= j < |conds| :: CondOf(conds[j], es, j)
      invariant asm.items == CondsCode(MakeCases(conds, conds, tags)) && AllFree(tags, asm.items, asm.usedTags)
    {
      assert Compiled(es[i], codes[i]);
      NextPair(es, i);
      ghost var c: Child;
      var tag: Result<Word>;
      ghost var s1, u1 := asm.items, asm.usedTags;
      tag, c := AppendCondition(asm, codes[i], false, es[i]);
      if tag.Failure? {
        assert i == 2 * (i / 2);
        assert CondsLeaveOne(es) ==> CondLeavesOne(es, i / 2);
        return Failure(tag.error), conds;
      }
      AllStillFree(s1, asm.items, u1, asm.usedTags, tags);
      CondsAppend(MakeCases(conds, conds, tags), Case(c, c, tag.value));
      assert MakeCases(conds + [c], conds + [c], tags + [tag.value]) == MakeCases(conds, conds, tags) + [Case(c, c, tag.value)];
      conds, tags := conds + [c], tags + [tag.value];
      i := i + 2;
    }
    LastTags(es, i);
    CondsDone(conds, es);
    r := Success(tags);
  }

  lemma LastTags(es: seq<Expr>, i: nat)
    requires |es| - 1 <= i <= |es|
    ensures CondTags(es[i..]) == 0
  {
  }

  lemma CondsDone(conds: seq<Child>, es: seq<Expr>)
    requires |conds| == |es| / 2 && forall j | 0 <= j < |conds| :: CondOf(conds[j], es, j)
    ensures CondsLeaveOne(es)
  {
    hide Dep, Sound;
    forall i | 0 <= i < |es| / 2
      ensures CondLeavesOne(es, i)
    {
      assert CondOf(conds[i], es, i);
    }
  }

  lemma {:induction false} CondsAppend(cases: seq<Case>, c: Case)
    ensures CondsCode(cases + [c]) == CondsCode(cases) + CondCode(c.cond, false, c.tag)
  {
    hide CondCode;
    if cases == [] {
      assert [] + [c] == [c];
      assert [c][1..] == [];
    } else {
      assert (cases + [c])[0] == cases[0] && (cases + [c])[1..] == cases[1..] + [c];
      CondsAppend(cases[1..], c);
    }
  }

  lemma {:induction false} CondsOnly(a: seq<Case>, b: seq<Case>)
    requires |a| == |b| && forall i | 0 <= i < |a| :: a[i].cond == b[i].cond && a[i].tag == b[i].tag
    ensures CondsCode(a) == CondsCode(b)
  {
    hide CondCode;
    if a != [] {
      CondsOnly(a[1..], b[1..]);
    }
  }

  /** The bodies of the cases from k - 1 down to i. */
  function TopBodies(bodies: seq<Child>, tags: seq<Word>, i: nat, end: Word): seq<Item>
    requires i <= |bodies| == |tags|
    decreases |bodies| - i
  {
    if i == |bodies| then []
    else TopBodies(bodies, tags, i + 1, end) + ([Tag(tags[i])] + Whole(bodies[i]) + (if i == 0 then [] else JumpCode(end)))
  }

  lemma {:induction false} TopBodiesOnly(a: seq<Child>, b: seq<Child>, tags: seq<Word>, i: nat, end: Word)
    requires i <= |a| == |b| == |tags| && forall j | i <= j < |a| :: a[j] == b[j]
    ensures TopBodies(a, tags, i, end) == TopBodies(b, tags, i, end)
    decreases |a| - i
  {
    hide Whole, JumpCode;
    if i < |a| {
      TopBodiesOnly(a, b, tags, i + 1, end);
    }
  }

  lemma {:induction false} TopThenRest(cases: seq<Case>, bodies: seq<Child>, tags: seq<Word>, i: nat, end: Word)
    requires i <= |bodies| == |tags| == |cases|
    requires forall j | 0 <= j < |cases| :: cases[j].body == bodies[j] && cases[j].tag == tags[j]
    ensures TopBodies(bodies, tags, i, end) + BodiesCode(cases, i, end) == BodiesCode(cases, |cases|, end)
    decreases |bodies| - i
  {
    hide Whole, JumpCode, BodiesCode;
    if i == |bodies| {
      assert [] + BodiesCode(cases, i, end) == BodiesCode(cases, i, end);
    } else {
      TopThenRest(cases, bodies, tags, i + 1, end);
      var jump := if i == 0 then [] else JumpCode(end);
      RegroupTop(TopBodies(bodies, tags, i + 1, end), [Tag(tags[i])], Whole(bodies[i]), jump, BodiesCode(cases, i, end));
      BodiesStep(cases, i, end);
    }
  }

  lemma BodiesStep(cases: seq<Case>, i: nat, end: Word)
    requires i < |cases|
    ensures BodiesCode(cases, i + 1, end) ==
            [Tag(cases[i].tag)] + (Whole(cases[i].body) + (if i == 0 then [] else JumpCode(end))) + BodiesCode(cases, i, end)
  {
    hide Whole, JumpCode;
  }

  lemma RegroupTop(top: seq<Item>, a: seq<Item>, b: seq<Item>, c: seq<Item>, d: seq<Item>)
    ensures top + (a + b + c) + d == top + (a + (b + c) + d)
  {
  }

  predicate BodiesLeave(es: seq<Expr>, d: int) {
    forall i | 0 <= i < |es| / 2 :: BodyLeaves(es, d, i)
  }

  predicate BodyLeaves(es: seq<Expr>, d: int, i: nat)
    requires i < |es| / 2
  {
    Leaves(es[2 * i + 1], d)
  }

  method AppendBodies(asm: Assembly, codes: seq<Code>, tags: seq<Word>, targetDeposit: int, ghost es: seq<Expr>)
    returns (r: Result<()>, ghost bodies: seq<Child>, ghost end: Word)
    requires asm.Valid() && asm.deposit >= 0 && targetDeposit >= 0
    requires AllCompiled(es, codes) && |tags| == |codes| / 2 && AllFree(tags, asm.items, asm.usedTags)
    modifies asm
    ensures r.Success? <==> BodiesLeave(es, targetDeposit) && (tags == [] || old(asm.usedTags) + 1 + BodyTags(es) <= TAG_LIMIT)
    ensures r.Success? ==>
              && asm.Valid() && asm.deposit >= old(asm.deposit)
              && asm.usedTags == old(asm.usedTags) + BodyTags(es) + (if tags == [] then 0 else 1) && |bodies| == |tags| && (forall i | 0 <= i < |bodies| :: BodyOf(bodies[i], es, i, targetDeposit))
              && asm.items == old(asm.items) +
                   if tags == [] then [] else JumpCode(end) + TopBodies(bodies, tags, 0, end) + [Tag(end)]
  {
    hide Correct, Dep, UniqueTags, TagsBelow, KeptTags, Sound, Whole, JumpCode, Deposit, AllFree, TopBodies, TagsNeeded, Climbs, Total, BodyTags, Compiled;
    bodies, end := [], 0;
    r := Success(());
    NoBodies(es);
    assert old(asm.items) + [] == old(asm.items);
    if tags == [] {
      return;
    }
    var tag := asm.NewTag();
    if tag.Failure? {
      return Failure(tag.error), bodies, end;
    }
    end := tag.value;
    r := asm.AppendJump(tag.value);
    FreeStart(tags, old(asm.items), old(asm.usedTags), end);
    ghost var start := asm.items;
    bodies := seq(|tags|, i => Child(Literal(0), [], 0));
    var i := |tags|;
    NoTopBodies(bodies, tags, end);
    NoBodies(es[2 * i..]);
    assert tags[..i] == tags && start + [] == start;
    while i > 0
      invariant 0 <= i <= |tags| == |bodies| && asm.Valid() && end < asm.usedTags && asm.deposit >= old(asm.deposit)
      invariant asm.usedTags == old(asm.usedTags) + 1 + BodyTags(es[2 * i..])
      invariant asm.items == start + TopBodies(bodies, tags, i, end)
      invariant forall j | i <= j < |bodies| :: BodyOf(bodies[j], es, j, targetDeposit)
      invariant AllFree(tags[..i] + [end], asm.items, asm.usedTags)
    {
      i := i - 1;
      var k := 2 * i + 1;
      assert Compiled(es[k], codes[k]);
      FreeSplit(tags, i, end, asm.items, asm.usedTags);
      NextPair(es, 2 * i);
      BodyTagsSuffix(es, i);
      ghost var c: Child;
      r, c := AppendBody(asm, codes[k], tags[i], tag.value, i, targetDeposit, tags[..i] + [end], es[k]);
      if r.Failure? {
        assert BodiesLeave(es, targetDeposit) ==> BodyLeaves(es, targetDeposit, i);
        return;
      }
      NextTopBody(bodies, c, tags, i, end);
      assert asm.items == start + TopBodies(bodies[i := c], tags, i, end);
      bodies := bodies[i := c];
    }
    FreeEnd(tags, end, asm.items, asm.usedTags);
    ShortDeposits();
    r := asm.Append(Tag(tag.value));
    assert es[0..] == es;
    BodiesDone(bodies, es, targetDeposit);
    assert asm.items == old(asm.items) + (JumpCode(end) + TopBodies(bodies, tags, 0, end) + [Tag(end)]);
  }

  lemma NoBodies(es: seq<Expr>)
    ensures |es| < 2 ==> BodyTags(es) == 0
  {
  }

  lemma BodiesDone(bodies: seq<Child>, es: seq<Expr>, d: int)
    requires |bodies| == |es| / 2 && forall j | 0 <= j < |bodies| :: BodyOf(bodies[j], es, j, d)
    ensures BodiesLeave(es, d)
  {
    hide Dep, Sound;
    forall i | 0 <= i < |es| / 2
      ensures BodyLeaves(es, d, i)
    {
      assert BodyOf(bodies[i], es, i, d);
    }
  }

  lemma NoTopBodies(bodies: seq<Child>, tags: seq<Word>, end: Word)
    requires |bodies| == |tags|
    ensures TopBodies(bodies, tags, |tags|, end) == []
  {
  }

  lemma NextTopBody(bodies: seq<Child>, c: Child, tags: seq<Word>, i: nat, end: Word)
    requires i < |bodies| == |tags|
    ensures TopBodies(bodies[i := c], tags, i, end) ==
            TopBodies(bodies, tags, i + 1, end) + ([Tag(tags[i])] + Whole(c) + (if i == 0 then [] else JumpCode(end)))
  {
    hide Whole, JumpCode;
    TopBodiesOnly(bodies, bodies[i := c], tags, i + 1, end);
  }

  lemma FreeStart(tags: seq<Word>, items: seq<Item>, usedTags: nat, end: Word)
    requires AllFree(tags, items, usedTags) && end == usedTags && TagsBelow(items, usedTags) && usedTags > 0
    ensures AllFree(tags + [end], items + JumpCode(end), usedTags + 1)
  {
    FreshTag(items, usedTags, end);
    var all, code := tags + [end], items + JumpCode(end);
    forall i | 0 <= i < |all|
      ensures 0 < all[i] < usedTags + 1 && Tag(all[i]) !in code
    {
      if i < |tags| {
        assert 0 < tags[i] < usedTags && Tag(tags[i]) !in items;
      }
    }
  }

  lemma FreeSplit(tags: seq<Word>, i: nat, end: Word, items: seq<Item>, usedTags: nat)
    requires i < |tags| && AllFree(tags[..i + 1] + [end], items, usedTags)
    ensures 0 < tags[i] < usedTags && Tag(tags[i]) !in items && 0 < end < usedTags
    ensures tags[i] !in tags[..i] + [end] && AllFree(tags[..i] + [end], items, usedTags)
  {
    var all, rest := tags[..i + 1] + [end], tags[..i] + [end];
    assert all[i] == tags[i] && all[i + 1] == end;
    forall j | 0 <= j < |rest|
      ensures 0 < rest[j] < usedTags && Tag(rest[j]) !in items && rest[j] != tags[i]
    {
      var k := if j < i then j else i + 1;
      assert rest[j] == all[k];
    }
    forall j, k | 0 <= j < k < |rest|
      ensures rest[j] != rest[k]
    {
      assert rest[j] == all[j];
      assert rest[k] == all[if k < i then k else i + 1];
    }
  }

  lemma FreeEnd(tags: seq<Word>, end: Word, items: seq<Item>, usedTags: nat)
    requires AllFree(tags[..0] + [end], items, usedTags)
    ensures 0 < end < usedTags && Tag(end) !in items
  {
    assert (tags[..0] + [end])[0] == end;
  }

  /** One body, behind its tag. */
  method AppendBody(asm: Assembly, code: Code, t: Word, end: Word, i: nat, targetDeposit: int, ghost free: seq<Word>, ghost e: Expr)
    returns (r: Result<()>, ghost c: Child)
    requires asm.Valid() && asm.deposit >= 0 && targetDeposit >= 0
    requires Compiled(e, code) && 0 < t < asm.usedTags && 0 < end < asm.usedTags && Tag(t) !in asm.items
    requires AllFree(free, asm.items, asm.usedTags) && t !in free
    modifies asm
    ensures r.Success? <==> Dep(e) == targetDeposit && old(asm.usedTags) + TagsNeeded(e) <= TAG_LIMIT
    ensures r.Success? ==>
              && asm.Valid() && c.expr == e && Sound(c) && Dep(e) == targetDeposit && asm.usedTags == old(asm.usedTags) + TagsNeeded(e)
              && asm.deposit == old(asm.deposit) + targetDeposit
              && asm.items == old(asm.items) + ([Tag(t)] + Whole(c) + (if i == 0 then [] else JumpCode(end)))
              && AllFree(free, asm.items, asm.usedTags)
  {
    hide Correct, Dep, UniqueTags, TagsBelow, KeptTags, Sound, TagsNeeded, Climbs, Total, Deposit, JumpCode, Shift;
    c := Child(e, code.items, asm.usedTags);
    ChildSound(e, code, asm.usedTags);
    WholeIs(c);
    ghost var s0 := asm.items;
    ShortDeposits();
    r := asm.Append(Tag(t));
    if code.deposit != targetDeposit {
      return Failure(InvalidDeposit), c;
    }
    ghost var s1, u1 := asm.items, asm.usedTags;
    FreeAfterTag(free, s0, t, u1);
    r := asm.AppendCode(code);
    if r.Failure? {
      return;
    }
    ghost var s2 := asm.items;
    AllStillFree(s1, asm.items, u1, asm.usedTags, free);
    BodyItems(s0, t, Whole(c), JumpCode(end));
    if i != 0 {
      r := asm.AppendJump(end);
      FreeAfterJump(free, s2, end);
    }
  }

  lemma BodyItems(before: seq<Item>, t: Word, code: seq<Item>, jump: seq<Item>)
    ensures before + [Tag(t)] + code == before + ([Tag(t)] + code + [])
    ensures before + [Tag(t)] + code + jump == before + ([Tag(t)] + code + jump)
  {
  }

  lemma FreeAfterTag(tags: seq<Word>, items: seq<Item>, t: Word, usedTags: nat)
    requires AllFree(tags, items, usedTags) && t !in tags
    ensures AllFree(tags, items + [Tag(t)], usedTags)
  {
  }

  lemma FreeAfterJump(tags: seq<Word>, items: seq<Item>, t: Word)
    requires forall i | 0 <= i < |tags| :: Tag(tags[i]) !in items
    ensures forall i | 0 <= i < |tags| :: Tag(tags[i]) !in items + JumpCode(t)
  {
  }

  lemma {:induction false} SwitchArgsAre(cases: seq<Case>, default: Option<Child>, es: seq<Expr>)
    requires |es| == 2 * |cases| + (if default.Some? then 1 else 0)
    requires forall i | 0 <= i < |cases| :: cases[i].cond.expr == es[2 * i] && cases[i].body.expr == es[2 * i + 1]
    requires default.Some? ==> default.value.expr == es[|es| - 1]
    ensures SwitchArgs(cases, default) == es
  {
    if cases != [] {
      var rest := es[2..];
      forall i | 0 <= i < |cases[1..]|
        ensures cases[1..][i].cond.expr == rest[2 * i] && cases[1..][i].body.expr == rest[2 * i + 1]
      {
        assert cases[i + 1].cond.expr == es[2 * (i + 1)] && cases[i + 1].body.expr == es[2 * (i + 1) + 1];
      }
      SwitchArgsAre(cases[1..], default, rest);
      assert cases[0].cond.expr == es[2 * 0] && cases[0].body.expr == es[2 * 0 + 1];
      assert es == [es[0], es[1]] + rest;
    }
  }

  lemma SwitchIs(conds: seq<Child>, bodies: seq<Child>, tags: seq<Word>, default: Option<Child>, d: int, es: seq<Expr>)
    requires |conds| == |bodies| == |tags| == |es| / 2 && es != []
    requires forall i | 0 <= i < |conds| :: CondOf(conds[i], es, i) && BodyOf(bodies[i], es, i, d)
    requires if |es| % 2 == 1 then default.Some? && default.value.expr == es[|es| - 1] && Sound(default.value) && Dep(default.value.expr) == d
             else default.None? && d == 0
    ensures var cases := MakeCases(conds, bodies, tags);
            SwitchArgs(cases, default) == es && d >= 0 && CasesSound(cases, default, d) && (cases != [] || default.Some?)
  {
    hide Sound, Dep;
    var cases := MakeCases(conds, bodies, tags);
    forall i | 0 <= i < |cases|
      ensures cases[i].cond.expr == es[2 * i] && cases[i].body.expr == es[2 * i + 1]
      ensures CaseSound(cases[i], Dep(cases[i].body.expr)) && Dep(cases[i].body.expr) == d
    {
      assert CondOf(conds[i], es, i) && BodyOf(bodies[i], es, i, d);
    }
    SwitchArgsAre(cases, default, es);
  }

  lemma SwitchItems(conds: seq<Child>, bodies: seq<Child>, tags: seq<Word>, default: Option<Child>, end: Word, items: seq<Item>)
    requires |conds| == |bodies| == |tags|
    requires items == CondsCode(MakeCases(conds, conds, tags)) + DefaultCode(default) +
                      (if tags == [] then [] else JumpCode(end) + TopBodies(bodies, tags, 0, end) + [Tag(end)])
    ensures items == SwitchCode(MakeCases(conds, bodies, tags), default, end)
  {
    hide CondCode, JumpCode, DefaultCode, Whole;
    var cases := MakeCases(conds, bodies, tags);
    CondsOnly(MakeCases(conds, conds, tags), cases);
    TopThenRest(cases, bodies, tags, 0, end);
    assert TopBodies(bodies, tags, 0, end) + [] == TopBodies(bodies, tags, 0, end);
  }

  function MakeCases(conds: seq<Child>, bodies: seq<Child>, tags: seq<Word>): (cases: seq<Case>)
    requires |conds| == |bodies| == |tags|
    ensures |cases| == |conds|
  {
    seq(|conds|, i requires 0 <= i < |conds| => Case(conds[i], bodies[i], tags[i]))
  }

  // ----- expressions -----

  /** Compiles an expression: first all its arguments, each on its own, then the construct. */
  method Compile(e: Expr) returns (r: Result<Code>)
    ensures r.Success? <==> WellShaped(e) && TagsNeeded(e) <= TAG_LIMIT
    ensures r.Success? ==> Compiled(e, r.value)
    decreases e
  {
    hide Compiled, ShapeOk, OwnTags;
    match e
    case Literal(n) =>
      if n < 0 || n >= WORD_BASE {
        return Failure(IntegerOutOfRange);
      }
      r := CompileLiteral(n);
    case Node(op, args) =>
      var codes: seq<Code> := [];
      var i := 0;
      while i < |args|
        invariant 0 <= i <= |args| && AllCompiled(args[..i], codes) && forall j | 0 <= j < i :: WellShaped(args[j])
      {
        TagsOfArgument(args, i);
        var code :- Compile(args[i]);
        assert args[..i + 1] == args[..i] + [args[i]];
        codes := codes + [code];
        i := i + 1;
      }
      assert args[..i] == args;
      r := Construct(op, codes, args);
  }

  lemma {:induction false} TagsOfArgument(es: seq<Expr>, i: nat)
    requires i < |es|
    ensures TagsNeeded(es[i]) <= TagSum(es)
  {
    if i > 0 {
      TagsOfArgument(es[1..], i - 1);
    }
  }

  method CompileLiteral(n: Word) returns (r: Result<Code>)
    ensures r.Success?
    ensures r.Success? ==> Compiled(Literal(n), r.value)
  {
    hide Correct, UniqueTags, TagsBelow, Climbs, Total;
    var asm := new Assembly();
    var _ := asm.Append(Push(n));
    LiteralCorrect(n);
    assert [] + [Push(n)] == [Push(n)];
    r := Success(asm.Finished());
  }

  method Construct(op: Operator, codes: seq<Code>, ghost args: seq<Expr>) returns (r: Result<Code>)
    requires AllCompiled(args, codes)
    ensures r.Success? <==> Compilable(op, args)
    ensures r.Success? ==> Compiled(Node(op, args), r.value)
  {
    hide Compiled, Compilable;
    match op
    case Instr(i) => r := CompileInstr(i, codes, args);
    case Arith(i) => r := CompileArith(i, codes, args);
    case Compare(i, negated) => r := CompileCompare(i, negated, codes, args);
    case Unary(i) => r := CompileUnary(i, codes, args);
    case If => r := CompileIf(codes, args);
    case When => r := CompileWhen(true, codes, args);
    case Unless => r := CompileWhen(false, codes, args);
    case While => r := CompileWhile(true, codes, args);
    case Until => r := CompileWhile(false, codes, args);
    case For => r := CompileFor(codes, args);
    case Switch => r := CompileSwitch(codes, args);
    case And => r := CompileShort(false, codes, args);
    case Or => r := CompileShort(true, codes, args);
    case Seq => r := CompileSeq(codes, args);
  }

  // ----- whole programs -----

  /** The tags of the program are placed at different addresses, all of which may be entered. */
  ghost predicate PlacesTags(env: Env, usedTags: nat) {
    && (forall t: Word | 0 < t < usedTags :: env.entry(t))
    && (forall t: Word, u: Word | 0 < t < u < usedTags :: env.address(t) != env.address(u))
  }

  /** The finished program: the code, followed by an explicit stop. */
  function Program(code: Code): seq<Item> {
    code.items + [Operation(STOP)]
  }

  lemma ProgramGood(env: Env, code: Code)
    requires CodeOk(code) && PlacesTags(env, code.usedTags)
    ensures Good(env, Program(code))
  {
    var prog := Program(code);
    forall i | 0 <= i < |prog| && prog[i].Tag?
      ensures env.entry(prog[i].data)
    {
      assert TagBelow(code.items[i], code.usedTags);
    }
    Rewriting.TagsOfConcat(code.items, [Operation(STOP)]);
    assert Rewriting.TagsOf([Operation(STOP)]) == [];
    var tags := TagsDistinct(code.items, code.usedTags);
    assert Rewriting.TagsOf(prog) == tags;
    forall i, j | 0 <= i < j < |tags|
      ensures env.address(tags[i]) != env.address(tags[j])
    {
      var t, u := tags[i], tags[j];
      assert IsPlaced(code.items, code.usedTags, t) && IsPlaced(code.items, code.usedTags, u);
      if t < u {
        assert env.address(t) != env.address(u);
      } else {
        assert env.address(u) != env.address(t);
      }
    }
  }

  lemma {:induction false} TagsDistinct(items: seq<Item>, usedTags: nat) returns (tags: seq<Word>)
    requires TagsBelow(items, usedTags) && UniqueTags(items)
    ensures tags == Rewriting.TagsOf(items)
    ensures forall i | 0 <= i < |tags| :: IsPlaced(items, usedTags, tags[i])
    ensures forall i, j | 0 <= i < j < |tags| :: tags[i] != tags[j]
  {
    tags := [];
    if items != [] {
      TailUnique(items);
      forall i | 0 <= i < |items[1..]|
        ensures TagBelow(items[1..][i], usedTags)
      {
        assert TagBelow(items[i + 1], usedTags);
      }
      var rest := TagsDistinct(items[1..], usedTags);
      assert TagBelow(items[0], usedTags);
      forall j | 0 <= j < |rest|
        ensures IsPlaced(items, usedTags, rest[j]) && (items[0].Tag? ==> rest[j] != items[0].data)
      {
        assert IsPlaced(items[1..], usedTags, rest[j]);
        TagInTail(items, rest[j]);
      }
      tags := if items[0].Tag? then [items[0].data] + rest else rest;
    }
  }

  predicate IsPlaced(items: seq<Item>, usedTags: nat, t: Word) {
    0 < t < usedTags && Tag(t) in items
  }

  lemma TagInTail(items: seq<Item>, t: Word)
    requires UniqueTags(items) && items != [] && Tag(t) in items[1..]
    ensures Tag(t) in items && (items[0].Tag? ==> t != items[0].data)
  {
    var k :| 0 <= k < |items[1..]| && items[1..][k] == Tag(t);
    assert items[k + 1] == Tag(t);
    assert items[0].Tag? ==> items[0].data != items[k + 1].data;
  }

  /** The run of the program gives the result of the evaluator, which has been given n iterations. */
  ghost predicate RunsAs(env: Env, prog: seq<Item>, deposit: int, stack: seq<Word>, w: World, n: nat, r: Res) {
    && (r.Val? ==> |r.vals| == deposit && exists j: nat :: EndsIn(env, prog, prog, stack, w, Stopped, [], stack + r.vals, r.world, j))
    && (r.Ended? ==> exists j: nat, s :: EndsIn(env, prog, prog, stack, w, r.status, r.output, s, r.world, j))
    && (r.Starved? ==> forall f: nat | f < n :: Run(env, prog, prog, stack, w, f) == OutOfFuel)
    && !r.Ill?
  }

  /** The main result: a compiled program ends as the evaluator says, with the values of the
      expression on the stack, and it runs on without end if the evaluator never comes to one. */
  lemma ProgramCorrect(e: Expr, code: Code, env: Env, stack: seq<Word>, w: World, n: nat)
    requires Compiled(e, code) && PlacesTags(env, code.usedTags)
    ensures RunsAs(env, Program(code), code.deposit, stack, w, n, Eval(env, e, w, n))
  {
    hide Correct, Dep, Eval, Good, Run, ReachesIn, Exec, TagsBelow, UniqueTags;
    var prog, r := Program(code), Eval(env, e, w, n);
    ProgramGood(env, code);
    ShiftNothing(code.items);
    assert prog == [] + Shift(code.items, 0) + [Operation(STOP)];
    UseCorrect(e, code.items, 0, env, prog, [], [Operation(STOP)], stack, w, n);
    assert Shift(code.items, 0) + [Operation(STOP)] == prog;
    if r.Val? {
      var s := stack + r.vals;
      ExecOne(env, Operation(STOP), s, r.world);
      ExecStop(env, s, r.world);
      StopEnds(env, prog, s, r.world);
      var j: nat :| ReachesIn(env, prog, prog, stack, w, [Operation(STOP)], s, r.world, j);
      EndsAfter(env, prog, prog, stack, w, [Operation(STOP)], s, r.world, j, s);
    }
  }

  lemma ShiftNothing(items: seq<Item>)
    ensures Shift(items, 0) == items
  {
  }

  lemma StopEnds(env: Env, prog: seq<Item>, stack: seq<Word>, w: World)
    ensures forall f: nat :: Run(env, prog, [Operation(STOP)], stack, w, f) == Done(Stopped, [], stack, w)
  {
    hide ExecItem;
    ExecStop(env, stack, w);
  }

  lemma EndsAfter(env: Env, prog: seq<Item>, rest: seq<Item>, stack: seq<Word>, w: World, mid: seq<Item>, s: seq<Word>, w': World, j: nat, final: seq<Word>)
    requires ReachesIn(env, prog, rest, stack, w, mid, s, w', j)
    requires forall f: nat :: Run(env, prog, mid, s, w', f) == Done(Stopped, [], final, w')
    ensures EndsIn(env, prog, rest, stack, w, Stopped, [], final, w', j)
  {
    hide Run;
  }
}
