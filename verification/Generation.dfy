/** The states of the code generator as values: generated items, the classes on the stack and their
    positions. Every lemma here adds one instruction and shows that the generated items still lead
    from every initial state to the described one. */
module Generating {
  import opened Words
  import opened Instructions
  import opened Items
  import opened Machine
  import opened Rules
  import opened Semantics
  import opened Classes
  import opened Knowing
  import opened Replaying
  import opened FreeGas
  import Rewriting

  datatype Gen = Gen(items: seq<Item>, height: int, stack: map<int, Id>, positions: map<Id, set<int>>)

  // ----- shape -----

  predicate Contiguous(stack: map<int, Id>, lo: int, height: int) {
    && lo - 1 <= height
    && (forall h | h in stack :: lo <= h <= height)
    && (forall h | lo <= h <= height :: h in stack)
  }

  /** The recorded positions of a class are exactly the heights that hold it. */
  predicate PositionsOk(stack: map<int, Id>, positions: map<Id, set<int>>) {
    && (forall h | h in stack :: IsPosition(positions, stack[h], h))
    && (forall c | c in positions :: forall h | h in positions[c] :: HoldsAt(stack, h, c))
  }

  predicate IsPosition(positions: map<Id, set<int>>, c: Id, h: int) {
    c in positions && h in positions[c]
  }

  predicate ShapeOk(reps: seq<Expr>, lo: int, g: Gen) {
    && WellFormed(reps)
    && Contiguous(g.stack, lo, g.height)
    && IdsBelow(g.stack, |reps|)
    && PositionsOk(g.stack, g.positions)
  }

  function WithPosition(positions: map<Id, set<int>>, c: Id, h: int): map<Id, set<int>> {
    positions[c := (if c in positions then positions[c] else {}) + {h}]
  }

  function WithoutPosition(positions: map<Id, set<int>>, c: Id, h: int): map<Id, set<int>> {
    positions[c := (if c in positions then positions[c] else {}) - {h}]
  }

  /** Adds a class on top of the stack. */
  function Put(g: Gen, c: Id): Gen {
    g.(height := g.height + 1, stack := g.stack[g.height + 1 := c],
       positions := WithPosition(g.positions, c, g.height + 1))
  }

  /** Takes the topmost class off the stack. */
  function Taken(g: Gen): Gen
    requires g.height in g.stack
  {
    g.(height := g.height - 1, stack := g.stack - {g.height},
       positions := WithoutPosition(g.positions, g.stack[g.height], g.height))
  }

  function Turned(g: Gen, from: int): Gen
    requires g.height in g.stack && from in g.stack
  {
    g.(stack := Exchanged(g.stack, g.height, from),
       positions := Moved(g.positions, g.stack[g.height], g.height, g.stack[from], from))
  }

  /** Class a moves from height p to height q, and class b the other way. */
  function Moved(positions: map<Id, set<int>>, a: Id, p: int, b: Id, q: int): map<Id, set<int>> {
    if a == b then positions
    else
      var moved := WithPosition(WithoutPosition(positions, a, p), a, q);
      WithPosition(WithoutPosition(moved, b, q), b, p)
  }

  function Append(g: Gen, item: Item): Gen {
    g.(items := g.items + [item])
  }

  lemma PutShape(reps: seq<Expr>, lo: int, g: Gen, c: Id)
    requires ShapeOk(reps, lo, g) && c < |reps|
    ensures ShapeOk(reps, lo, Put(g, c))
  {
    hide WellFormed;
    var g' := Put(g, c);
    forall h | h in g'.stack
      ensures IsPosition(g'.positions, g'.stack[h], h)
    {
      if h != g.height + 1 {
        assert IsPosition(g.positions, g.stack[h], h);
      }
    }
  }

  lemma TakenShape(reps: seq<Expr>, lo: int, g: Gen)
    requires ShapeOk(reps, lo, g) && g.height in g.stack
    ensures ShapeOk(reps, lo, Taken(g))
    ensures Taken(g).stack == Truncate(g.stack, g.height - 1)
  {
    hide WellFormed;
    var g' := Taken(g);
    forall h | h in g'.stack
      ensures IsPosition(g'.positions, g'.stack[h], h)
    {
      assert IsPosition(g.positions, g.stack[h], h);
    }
  }

  lemma TurnedShape(reps: seq<Expr>, lo: int, g: Gen, from: int)
    requires ShapeOk(reps, lo, g) && g.height in g.stack && from in g.stack
    ensures ShapeOk(reps, lo, Turned(g, from))
  {
    hide WellFormed;
    var g' := Turned(g, from);
    forall h | h in g'.stack
      ensures IsPosition(g'.positions, g'.stack[h], h)
    {
      assert IsPosition(g.positions, g.stack[h], h);
      assert IsPosition(g.positions, g.stack[from], from);
      assert IsPosition(g.positions, g.stack[g.height], g.height);
    }
    forall c, h | c in g'.positions && h in g'.positions[c]
      ensures HoldsAt(g'.stack, h, c)
    {
      if c in g.positions && h in g.positions[c] {
        assert HoldsAt(g.stack, h, c);
      }
    }
  }

  // ----- meaning -----

  /** The initial stack reaches down to the given height. */
  predicate Deep(init: Init, lo: int) {
    |init.stack| - 1 + lo >= 0
  }

  ghost predicate StateAt(init: Init, reps: seq<Expr>, done: set<Id>, g: Gen, stack: seq<Word>, w: World)
    requires WellFormed(reps) && IdsBelow(g.stack, |reps|)
  {
    && StackAgrees(Nu(init, reps), init.stack, g.height, g.stack, stack)
    && w == Replay(init, Nu(init, reps), reps, |reps|, done)
  }

  /** The generated items lead to the described stack and to the world after the executed stores. */
  ghost predicate RunsTo(init: Init, reps: seq<Expr>, done: set<Id>, g: Gen)
    requires WellFormed(reps) && IdsBelow(g.stack, |reps|)
  {
    var r := Exec(init.env, g.items, init.stack, init.world);
    r.Next? && StateAt(init, reps, done, g, r.stack, r.world)
  }

  ghost predicate GenOk(reps: seq<Expr>, lo: int, done: set<Id>, g: Gen) {
    && ShapeOk(reps, lo, g)
    && forall init | ValidInit(init) && Deep(init, lo) :: RunsTo(init, reps, done, g)
  }

  ghost predicate MovesAt(init: Init, reps: seq<Expr>, done: set<Id>, g: Gen, item: Item, stack: seq<Word>, w: World)
    requires WellFormed(reps) && IdsBelow(g.stack, |reps|)
  {
    var r := ExecItem(init.env, item, stack, w);
    r.Next? && StateAt(init, reps, done, g, r.stack, r.world)
  }

  /** The item leads from the states described by g to those described by g'. */
  ghost predicate Moves(reps: seq<Expr>, lo: int, done: set<Id>, g: Gen, done': set<Id>, g': Gen, item: Item)
  {
    && ShapeOk(reps, lo, g) && ShapeOk(reps, lo, g')
    && forall init, stack, w | ValidInit(init) && Deep(init, lo) && StateAt(init, reps, done, g, stack, w) ::
         MovesAt(init, reps, done', g', item, stack, w)
  }

  lemma Advance(reps: seq<Expr>, lo: int, done: set<Id>, g: Gen, done': set<Id>, g': Gen, item: Item)
    requires GenOk(reps, lo, done, g) && Moves(reps, lo, done, g, done', g', item) && g'.items == g.items + [item]
    ensures GenOk(reps, lo, done', g')
  {
    hide StateAt, ValidInit, Exec, ExecItem, WellFormed, Contiguous, PositionsOk;
    forall init | ValidInit(init) && Deep(init, lo)
      ensures RunsTo(init, reps, done', g')
    {
      assert RunsTo(init, reps, done, g);
      var r := Exec(init.env, g.items, init.stack, init.world);
      ExecConcat(init.env, g.items, [item], init.stack, init.world);
      ExecOne(init.env, item, r.stack, r.world);
      assert MovesAt(init, reps, done', g', item, r.stack, r.world);
    }
  }

  // ----- DUP, SWAP and POP -----

  function DupItem(n: nat): Item
    requires 1 <= n <= 16
  {
    Operation(DUP1 + n - 1)
  }

  function SwapItem(n: nat): Item
    requires 1 <= n <= 16
  {
    Operation(SWAP1 + n - 1)
  }

  lemma DupMoves(reps: seq<Expr>, lo: int, done: set<Id>, g: Gen, from: int)
    requires ShapeOk(reps, lo, g) && from in g.stack && 1 <= 1 + g.height - from <= 16
    ensures Moves(reps, lo, done, g, done, Append(Put(g, g.stack[from]), DupItem(1 + g.height - from)), DupItem(1 + g.height - from))
  {
    hide ValidInit, ExecItem, WellFormed, Contiguous, PositionsOk, StackAgrees, Nu;
    var c, item := g.stack[from], DupItem(1 + g.height - from);
    PutShape(reps, lo, g, c);
    forall init, stack, w | ValidInit(init) && Deep(init, lo) && StateAt(init, reps, done, g, stack, w)
      ensures MovesAt(init, reps, done, Append(Put(g, c), item), item, stack, w)
    {
      var nu := Nu(init, reps);
      ExecDup(init.env, item.instr, stack, w);
      ElementIs(nu, init.stack, g.height, g.stack, stack, from);
      PushElement(nu, init.stack, g.height, g.stack, stack, c);
    }
  }

  lemma ElementIs(nu: seq<Word>, base: seq<Word>, height: int, elements: map<int, Id>, stack: seq<Word>, h: int)
    requires IdsBelow(elements, |nu|) && StackAgrees(nu, base, height, elements, stack) && h in elements
    ensures 0 <= |stack| - 1 - (height - h) < |stack|
    ensures stack[|stack| - 1 - (height - h)] == nu[elements[h]]
  {
    assert ElementAgrees(nu, base, stack, h, elements[h]);
  }

  lemma SwapMoves(reps: seq<Expr>, lo: int, done: set<Id>, g: Gen, from: int)
    requires ShapeOk(reps, lo, g) && g.height in g.stack && from in g.stack && 1 <= g.height - from <= 16
    ensures Moves(reps, lo, done, g, done, Append(Turned(g, from), SwapItem(g.height - from)), SwapItem(g.height - from))
  {
    hide ValidInit, ExecItem, WellFormed, Contiguous, PositionsOk, StackAgrees, Nu;
    var item := SwapItem(g.height - from);
    TurnedShape(reps, lo, g, from);
    forall init, stack, w | ValidInit(init) && Deep(init, lo) && StateAt(init, reps, done, g, stack, w)
      ensures MovesAt(init, reps, done, Append(Turned(g, from), item), item, stack, w)
    {
      var nu := Nu(init, reps);
      ExecSwap(init.env, item.instr, stack, w);
      ElementIs(nu, init.stack, g.height, g.stack, stack, from);
      SwapElements(nu, init.stack, g.height, g.stack, stack, g.height - from);
    }
  }

  lemma PopMoves(reps: seq<Expr>, lo: int, done: set<Id>, g: Gen)
    requires ShapeOk(reps, lo, g) && g.height in g.stack
    ensures Moves(reps, lo, done, g, done, Append(Taken(g), Operation(POP)), Operation(POP))
  {
    hide ValidInit, ExecItem, WellFormed, Contiguous, PositionsOk, StackAgrees, Nu;
    var item := Operation(POP);
    TakenShape(reps, lo, g);
    forall init, stack, w | ValidInit(init) && Deep(init, lo) && StateAt(init, reps, done, g, stack, w)
      ensures MovesAt(init, reps, done, Append(Taken(g), item), item, stack, w)
    {
      var nu := Nu(init, reps);
      ExecPop(init.env, stack, w);
      ElementIs(nu, init.stack, g.height, g.stack, stack, g.height);
      PopElements(nu, init.stack, g.height, g.stack, stack, 1);
    }
  }

  /** Two equal swaps at the end cancel out. */
  lemma CancelSwaps(reps: seq<Expr>, lo: int, done: set<Id>, g: Gen)
    requires GenOk(reps, lo, done, g)
    requires |g.items| >= 2 && IsSwapItem(g.items[|g.items| - 1]) && g.items[|g.items| - 2] == g.items[|g.items| - 1]
    ensures GenOk(reps, lo, done, g.(items := g.items[..|g.items| - 2]))
  {
    hide StackAgrees, Replay, Nu, ValidInit, Exec, ExecItem, ShapeOk, IsSwap, WellFormed, IdsBelow;
    var n := |g.items| - 2;
    var front, swap := g.items[..n], g.items[n];
    assert g.items == front + [swap, swap];
    ShapeFacts(reps, lo, g);
    ShapeFacts(reps, lo, g.(items := front));
    forall init | ValidInit(init) && Deep(init, lo)
      ensures RunsTo(init, reps, done, g.(items := front))
    {
      assert RunsTo(init, reps, done, g);
      ExecConcat(init.env, front, [swap, swap], init.stack, init.world);
      var r := Exec(init.env, front, init.stack, init.world);
      assert r.Next?;
      ExecTwo(init.env, swap, swap, r.stack, r.world);
      SwapTwice(init.env, swap.instr, r.stack, r.world);
    }
  }

  lemma ShapeFacts(reps: seq<Expr>, lo: int, g: Gen)
    ensures ShapeOk(reps, lo, g) ==> WellFormed(reps) && IdsBelow(g.stack, |reps|)
    ensures forall items :: ShapeOk(reps, lo, g.(items := items)) <==> ShapeOk(reps, lo, g)
  {
  }

  lemma SwapTwice(env: Env, op: Opcode, stack: seq<Word>, w: World)
    requires IsSwap(op)
    ensures var r := ExecItem(env, Operation(op), stack, w);
            r.Fail? || (r.Next? && ExecItem(env, Operation(op), r.stack, r.world) == Next(stack, w))
  {
    hide ExecItem;
    var n := op - SWAP1 + 1;
    ExecSwap(env, op, stack, w);
    if n < |stack| {
      ExecSwap(env, op, SwapTop(stack, n), w);
      assert SwapTop(SwapTop(stack, n), n) == stack;
    }
  }

  // ----- computing a class from its arguments -----

  /** The given classes are on top of the stack, the first one topmost. */
  predicate OnTop(g: Gen, ids: seq<Id>) {
    forall i | 0 <= i < |ids| :: HoldsAt(g.stack, g.height - i, ids[i])
  }

  lemma TopValues(nu: seq<Word>, base: seq<Word>, g: Gen, stack: seq<Word>, ids: seq<Id>)
    requires IdsBelow(g.stack, |nu|) && StackAgrees(nu, base, g.height, g.stack, stack) && OnTop(g, ids)
    ensures |ids| <= |stack|
    ensures forall i | 0 <= i < |ids| :: ids[i] < |nu| && stack[|stack| - 1 - i] == nu[ids[i]]
    ensures Args(stack, |ids|) == ArgValues(nu, ids)
  {
    hide StackAgrees;
    forall i | 0 <= i < |ids|
      ensures ids[i] < |nu| && i < |stack| && stack[|stack| - 1 - i] == nu[ids[i]]
    {
      assert HoldsAt(g.stack, g.height - i, ids[i]);
      ElementIs(nu, base, g.height, g.stack, stack, g.height - i);
    }
    if |ids| > 0 {
      var last := ids[|ids| - 1];
      assert |ids| - 1 < |stack|;
    }
  }

  /** Takes the topmost n classes off the stack. */
  function Reduced(g: Gen, n: nat): Gen {
    g.(height := g.height - n, stack := Truncate(g.stack, g.height - n),
       positions := map c | c in g.positions :: PositionsUpTo(g.positions[c], g.height - n))
  }

  function PositionsUpTo(positions: set<int>, height: int): set<int> {
    set h | h in positions && h <= height
  }

  lemma ReducedShape(reps: seq<Expr>, lo: int, g: Gen, n: nat)
    requires ShapeOk(reps, lo, g) && lo <= g.height - n + 1
    ensures ShapeOk(reps, lo, Reduced(g, n))
  {
    hide WellFormed;
    var g' := Reduced(g, n);
    forall h | h in g'.stack
      ensures IsPosition(g'.positions, g'.stack[h], h)
    {
      assert IsPosition(g.positions, g.stack[h], h);
    }
    forall c, h | c in g'.positions && h in g'.positions[c]
      ensures HoldsAt(g'.stack, h, c)
    {
      assert HoldsAt(g.stack, h, c);
    }
  }

  /** The state after the instruction that computes the class from the topmost n classes. */
  function Applied(g: Gen, c: Id, item: Item, n: nat): Gen {
    var rest := Append(Reduced(g, n), item);
    if ReturnValues(item) == 1 then Put(rest, c)
    else rest.(positions := rest.positions[c := if c in rest.positions then rest.positions[c] else {}])
  }

  lemma AppliedShape(reps: seq<Expr>, lo: int, g: Gen, c: Id, item: Item, n: nat)
    requires ShapeOk(reps, lo, g) && lo <= g.height - n + 1 && c < |reps|
    ensures ShapeOk(reps, lo, Applied(g, c, item, n))
  {
    hide WellFormed, ReturnValues;
    ReducedShape(reps, lo, g, n);
    var rest := Append(Reduced(g, n), item);
    if ReturnValues(item) == 1 {
      PutShape(reps, lo, rest, c);
    } else {
      var g' := Applied(g, c, item, n);
      forall h | h in g'.stack
        ensures IsPosition(g'.positions, g'.stack[h], h)
      {
        assert IsPosition(rest.positions, rest.stack[h], h);
      }
    }
  }

  /** The order of the arguments on the stack: commutative operations take either. */
  predicate ArgumentOrder(e: Expr, ids: seq<Id>) {
    ids == e.args || (IsCommutativeItem(e.item) && |e.args| == 2 && ids == [e.args[1], e.args[0]])
  }

  /** Everything that has to be known before the instruction of class c may be appended. */
  ghost predicate Computable(reps: seq<Expr>, lo: int, done: set<Id>, g: Gen, c: Id, ids: seq<Id>) {
    && ShapeOk(reps, lo, g) && AllArityOk(reps) && c < |reps|
    && !reps[c].item.UndefinedItem?
    && ArgumentOrder(reps[c], ids) && OnTop(g, ids) && lo <= g.height - |ids| + 1
    && (IsLoadItem(reps[c].item) ==> LoadReady(reps, c, done))
    && (IsStoreItem(reps[c].item) ==> forall i | i in done :: i < c)
  }

  function DoneAfter(reps: seq<Expr>, done: set<Id>, c: Id): set<Id>
    requires c < |reps|
  {
    if IsStoreItem(reps[c].item) then done + {c} else done
  }

  lemma ApplyMoves(reps: seq<Expr>, lo: int, done: set<Id>, g: Gen, c: Id, ids: seq<Id>)
    requires Computable(reps, lo, done, g, c, ids)
    ensures Moves(reps, lo, done, g, DoneAfter(reps, done, c), Applied(g, c, reps[c].item, |ids|), reps[c].item)
  {
    hide ValidInit, ExecItem, WellFormed, Contiguous, PositionsOk, StackAgrees, Nu, Replay, Applied, Computable;
    ComputableFacts(reps, lo, done, g, c, ids);
    var item := reps[c].item;
    var g', done' := Applied(g, c, item, |ids|), DoneAfter(reps, done, c);
    AppliedShape(reps, lo, g, c, item, |ids|);
    forall init, stack, w | ValidInit(init) && Deep(init, lo) && StateAt(init, reps, done, g, stack, w)
      ensures MovesAt(init, reps, done', g', item, stack, w)
    {
      ApplyMovesAt(init, reps, lo, done, g, c, ids, stack, w);
    }
  }

  lemma ComputableFacts(reps: seq<Expr>, lo: int, done: set<Id>, g: Gen, c: Id, ids: seq<Id>)
    requires Computable(reps, lo, done, g, c, ids)
    ensures ShapeOk(reps, lo, g) && c < |reps| && lo <= g.height - |ids| + 1
  {
  }

  lemma ApplyMovesAt(init: Init, reps: seq<Expr>, lo: int, done: set<Id>, g: Gen, c: Id, ids: seq<Id>, stack: seq<Word>, w: World)
    requires Computable(reps, lo, done, g, c, ids) && ValidInit(init) && StateAt(init, reps, done, g, stack, w)
    requires ShapeOk(reps, lo, Applied(g, c, reps[c].item, |ids|))
    ensures MovesAt(init, reps, DoneAfter(reps, done, c), Applied(g, c, reps[c].item, |ids|), reps[c].item, stack, w)
  {
    hide ValidInit, ExecItem, StackAgrees, Nu, Replay, ArgCount, IsPure, LoadReady, Contiguous, PositionsOk, OnTop, WithPosition, WellFormed, ArgumentOrder, AllArityOk;
    var nu, n := Nu(init, reps), |ids|;
    if IsStoreItem(reps[c].item) {
      ComputeStore(init, reps, lo, done, g, c, ids, stack, w);
      PopElements(nu, init.stack, g.height, g.stack, stack, n);
    } else {
      if !reps[c].item.Operation? {
        ComputePush(init, reps, lo, done, g, c, ids, stack, w);
      } else if IsLoadItem(reps[c].item) {
        ComputeLoad(init, reps, lo, done, g, c, ids, stack, w);
      } else {
        ComputePure(init, reps, lo, done, g, c, ids, stack, w);
      }
      PopElements(nu, init.stack, g.height, g.stack, stack, n);
      PushElement(nu, init.stack, g.height - n, Truncate(g.stack, g.height - n), Drop(stack, n), c);
    }
  }

  lemma ComputePush(init: Init, reps: seq<Expr>, lo: int, done: set<Id>, g: Gen, c: Id, ids: seq<Id>, stack: seq<Word>, w: World)
    requires Computable(reps, lo, done, g, c, ids) && ValidInit(init) && StateAt(init, reps, done, g, stack, w)
    requires !reps[c].item.Operation?
    ensures |ids| <= |stack|
    ensures ReturnValues(reps[c].item) == 1
    ensures ExecItem(init.env, reps[c].item, stack, w) == Next(Drop(stack, |ids|) + [Nu(init, reps)[c]], w)
  {
    hide ValidInit, ExecItem, Contiguous, PositionsOk, StackAgrees, Interp, Nu, Replay, ArgCount, HasSideEffects, LoadReady, IsPure, Load, Store;
    var nu, e := Nu(init, reps), reps[c];
    assert ArityOk(e);
    TopValues(nu, init.stack, g, stack, ids);
    ExecPush(init.env, e.item, stack, w);
    PushedNu(init, reps, c);
    assert Drop(stack, 0) == stack;
  }

  lemma ComputeLoad(init: Init, reps: seq<Expr>, lo: int, done: set<Id>, g: Gen, c: Id, ids: seq<Id>, stack: seq<Word>, w: World)
    requires Computable(reps, lo, done, g, c, ids) && ValidInit(init) && StateAt(init, reps, done, g, stack, w)
    requires IsLoadItem(reps[c].item)
    ensures |ids| <= |stack|
    ensures ReturnValues(reps[c].item) == 1
    ensures ExecItem(init.env, reps[c].item, stack, w) == Next(Drop(stack, |ids|) + [Nu(init, reps)[c]], w)
  {
    hide ValidInit, ExecItem, Contiguous, PositionsOk, StackAgrees, Interp, Nu, Replay, ArgCount, HasSideEffects, LoadReady, IsPure, Load, Store;
    var nu, e := Nu(init, reps), reps[c];
    assert ArityOk(e);
    TopValues(nu, init.stack, g, stack, ids);
    LoadHasOne(e);
    ExecLoad(init.env, e.item.instr, stack, w);
    LoadNeeded(init, reps, c, done);
    assert stack[|stack| - 1 - 0] == nu[ids[0]];
  }

  lemma ComputeStore(init: Init, reps: seq<Expr>, lo: int, done: set<Id>, g: Gen, c: Id, ids: seq<Id>, stack: seq<Word>, w: World)
    requires Computable(reps, lo, done, g, c, ids) && ValidInit(init) && StateAt(init, reps, done, g, stack, w)
    requires IsStoreItem(reps[c].item)
    ensures |ids| <= |stack|
    ensures ReturnValues(reps[c].item) == 0
    ensures ExecItem(init.env, reps[c].item, stack, w) ==
            Next(Drop(stack, |ids|), Replay(init, Nu(init, reps), reps, |reps|, done + {c}))
  {
    hide ValidInit, ExecItem, Contiguous, PositionsOk, StackAgrees, Interp, Nu, Replay, ArgCount, HasSideEffects, LoadReady, IsPure, Load, Store;
    var nu, e := Nu(init, reps), reps[c];
    assert ArityOk(e);
    TopValues(nu, init.stack, g, stack, ids);
    StoreHasTwo(e);
    ExecStore(init.env, e.item.instr, stack, w);
    ReplayNext(init, nu, reps, c, done);
    assert stack[|stack| - 1 - 0] == nu[ids[0]] && stack[|stack| - 1 - 1] == nu[ids[1]];
    assert ArgValues(nu, e.args) == [nu[ids[0]], nu[ids[1]]];
  }

  lemma ComputePure(init: Init, reps: seq<Expr>, lo: int, done: set<Id>, g: Gen, c: Id, ids: seq<Id>, stack: seq<Word>, w: World)
    requires Computable(reps, lo, done, g, c, ids) && ValidInit(init) && StateAt(init, reps, done, g, stack, w)
    requires reps[c].item.Operation? && !IsMemoryItem(reps[c].item)
    ensures |ids| <= |stack|
    ensures ReturnValues(reps[c].item) == 1
    ensures ExecItem(init.env, reps[c].item, stack, w) == Next(Drop(stack, |ids|) + [Nu(init, reps)[c]], w)
  {
    hide ValidInit, ExecItem, Contiguous, PositionsOk, StackAgrees, Interp, Nu, Replay, ArgCount, HasSideEffects, LoadReady, IsPure, Load, Store;
    var nu, e := Nu(init, reps), reps[c];
    assert ArityOk(e);
    TopValues(nu, init.stack, g, stack, ids);
    ExecPure(init.env, e.item.instr, stack, w);
    PureNu(init, reps, c, ids, w);
    ReplayOutside(init, nu, reps, |reps|, done);
  }

  lemma LoadHasOne(e: Expr)
    requires ArityOk(e) && IsLoadItem(e.item)
    ensures |e.args| == 1 && ReturnValues(e.item) == 1
  {
  }

  lemma PushedNu(init: Init, reps: seq<Expr>, c: Id)
    requires WellFormed(reps) && c < |reps| && IsPushItem(reps[c].item)
    ensures Nu(init, reps)[c] == PushedValue(init.env, reps[c].item)
  {
    hide Nu, Interp, PushedValue;
    NuAt(init, reps, c);
  }

  lemma PureNu(init: Init, reps: seq<Expr>, c: Id, ids: seq<Id>, w: World)
    requires WellFormed(reps) && c < |reps| && ArityOk(reps[c]) && reps[c].item.Operation? && !IsMemoryItem(reps[c].item)
    requires ArgumentOrder(reps[c], ids) && forall i | 0 <= i < |ids| :: ids[i] < |reps|
    ensures |ids| == ArgCount(reps[c].item.instr) && IsPure(reps[c].item.instr) && ReturnValues(reps[c].item) == 1
    ensures w.outside == init.world.outside ==>
              Nu(init, reps)[c] == PureValue(init.env, w.outside, reps[c].item.instr, ArgValues(Nu(init, reps), ids))
  {
    hide Nu, Interp, PureValue, IsValidInstruction, HasSideEffects, ArgCount, IsDup, IsSwap, RetCount, IsCommutative;
    var e, nu := reps[c], Nu(init, reps);
    NuAt(init, reps, c);
    if ids != e.args {
      var x, y := nu[ids[1]], nu[ids[0]];
      CommutedMeaning(init, e.item.instr, x, y);
      assert ArgValues(nu, e.args) == [x, y];
      assert ArgValues(nu, ids) == [y, x];
    }
  }

  // ----- the invariant of the generator -----

  /** The target classes below height b are in place. */
  predicate Placed(stack: map<int, Id>, target: map<int, Id>, lo: int, b: int) {
    forall h | lo <= h < b :: h in target && HoldsAt(stack, h, target[h])
  }

  /** A store is marked as computed only when it has been executed. */
  predicate StoresDone(reps: seq<Expr>, done: set<Id>, positions: map<Id, set<int>>) {
    forall c | c in positions && c < |reps| && IsStoreItem(reps[c].item) :: c in done
  }

  ghost predicate GenInv(reps: seq<Expr>, lo: int, b: int, done: set<Id>, target: map<int, Id>, g: Gen) {
    && GenOk(reps, lo, done, g)
    && Placed(g.stack, target, lo, b)
    && lo <= b <= g.height + 1
    && StoresDone(reps, done, g.positions)
    && Rewriting.NoTags(g.items) && NoFreeGas(g.items)
  }

  lemma DupInv(reps: seq<Expr>, lo: int, b: int, done: set<Id>, target: map<int, Id>, g: Gen, from: int)
    requires GenInv(reps, lo, b, done, target, g) && from in g.stack && 1 <= 1 + g.height - from <= 16
    ensures GenInv(reps, lo, b, done, target, Append(Put(g, g.stack[from]), DupItem(1 + g.height - from)))
  {
    hide RunsTo, ValidInit, WellFormed, IdsBelow, Moves;
    var g' := Append(Put(g, g.stack[from]), DupItem(1 + g.height - from));
    DupMoves(reps, lo, done, g, from);
    Advance(reps, lo, done, g, done, g', DupItem(1 + g.height - from));
    assert IsPosition(g.positions, g.stack[from], from);
  }

  lemma SwapInv(reps: seq<Expr>, lo: int, b: int, done: set<Id>, target: map<int, Id>, g: Gen, from: int)
    requires GenInv(reps, lo, b, done, target, g) && b <= from && 1 <= g.height - from <= 16
    ensures g.height in g.stack && from in g.stack
    ensures GenInv(reps, lo, b, done, target, Append(Turned(g, from), SwapItem(g.height - from)))
  {
    hide RunsTo, ValidInit, WellFormed, IdsBelow, Moves;
    assert g.height in g.stack && from in g.stack;
    var g' := Append(Turned(g, from), SwapItem(g.height - from));
    SwapMoves(reps, lo, done, g, from);
    Advance(reps, lo, done, g, done, g', SwapItem(g.height - from));
    assert IsPosition(g.positions, g.stack[from], from);
    assert IsPosition(g.positions, g.stack[g.height], g.height);
  }

  lemma PopInv(reps: seq<Expr>, lo: int, b: int, done: set<Id>, target: map<int, Id>, g: Gen)
    requires GenInv(reps, lo, b, done, target, g) && b <= g.height
    ensures g.height in g.stack
    ensures GenInv(reps, lo, b, done, target, Append(Taken(g), Operation(POP)))
  {
    hide RunsTo, ValidInit, WellFormed, IdsBelow, Moves;
    assert g.height in g.stack;
    var g' := Append(Taken(g), Operation(POP));
    PopMoves(reps, lo, done, g);
    Advance(reps, lo, done, g, done, g', Operation(POP));
    assert IsPosition(g.positions, g.stack[g.height], g.height);
  }

  lemma CancelInv(reps: seq<Expr>, lo: int, b: int, done: set<Id>, target: map<int, Id>, g: Gen)
    requires GenInv(reps, lo, b, done, target, g)
    requires |g.items| >= 2 && IsSwapItem(g.items[|g.items| - 1]) && g.items[|g.items| - 2] == g.items[|g.items| - 1]
    ensures GenInv(reps, lo, b, done, target, g.(items := g.items[..|g.items| - 2]))
  {
    hide GenOk, IsSwapItem;
    CancelSwaps(reps, lo, done, g);
  }

  lemma ApplyInv(reps: seq<Expr>, lo: int, b: int, done: set<Id>, target: map<int, Id>, g: Gen, c: Id, ids: seq<Id>)
    requires GenInv(reps, lo, b, done, target, g) && Computable(reps, lo, done, g, c, ids) && b <= g.height - |ids| + 1
    ensures GenInv(reps, lo, b, DoneAfter(reps, done, c), target, Applied(g, c, reps[c].item, |ids|))
  {
    hide GenOk, ValidInit, WellFormed, IdsBelow, Moves, PositionsOk, ReturnValues, AllArityOk, LoadReady, ArgumentOrder, OnTop;
    var g', done' := Applied(g, c, reps[c].item, |ids|), DoneAfter(reps, done, c);
    ApplyMoves(reps, lo, done, g, c, ids);
    Advance(reps, lo, done, g, done', g', reps[c].item);
    ClassItem(reps, c);
  }

  lemma ClassItem(reps: seq<Expr>, c: Id)
    requires AllArityOk(reps) && c < |reps|
    ensures !reps[c].item.Tag? && reps[c].item != CHARGE
  {
    assert ArityOk(reps[c]);
  }

  /** A position in the target that is already filled is not a candidate for removal. */
  lemma NotPlaced(reps: seq<Expr>, lo: int, b: int, done: set<Id>, target: map<int, Id>, g: Gen, c: Id, from: int)
    requires GenInv(reps, lo, b, done, target, g) && HoldsAt(g.stack, from, c)
    requires from !in target || target[from] != c
    ensures b <= from
  {
    hide GenOk;
    GenFacts(reps, lo, b, done, target, g);
  }

  lemma GenFacts(reps: seq<Expr>, lo: int, b: int, done: set<Id>, target: map<int, Id>, g: Gen)
    requires GenInv(reps, lo, b, done, target, g)
    ensures ShapeOk(reps, lo, g)
  {
  }
}
