/** The meaning of a table of equivalence classes. Read from front to back, the table is a program
    in which every class is assigned once: pure expressions compute a value, loads read the storage
    or memory that the stores before them have left, and stores change it. */
module Semantics {
  import opened Words
  import opened Instructions
  import opened Items
  import opened Machine
  import opened Rules

  /** The state in which a block of code starts. */
  datatype Init = Init(env: Env, stack: seq<Word>, world: World)

  ghost predicate ValidInit(init: Init) {
    AddressesFit(init.env)
  }

  /** The element at a height relative to the top of the initial stack; the top has height zero. */
  function StackAt(stack: seq<Word>, height: int): Word {
    var i := |stack| - 1 + height;
    if 0 <= i < |stack| then stack[i] else 0
  }

  predicate IsLoad(op: Opcode) { op == SLOAD || op == MLOAD }

  predicate IsStore(op: Opcode) { op == SSTORE || op == MSTORE }

  predicate IsMemoryItem(item: Item) {
    item.Operation? && IsMemoryOp(item.instr)
  }

  predicate IsStoreItem(item: Item) {
    item.Operation? && IsStore(item.instr)
  }

  predicate IsLoadItem(item: Item) {
    item.Operation? && IsLoad(item.instr)
  }

  /** Items that stand for a value, a load or a store. */
  predicate IsExpressible(item: Item) {
    if item.Operation? then IsPure(item.instr) || IsMemoryOp(item.instr) else !item.Tag?
  }

  /** Instructions come with as many arguments as they take, other items with none. */
  predicate ArityOk(e: Expr) {
    IsExpressible(e.item) && |e.args| == Arguments(e.item)
  }

  /** The value of an expression that neither loads nor stores. An undefined item stands for an
      element of the initial stack. */
  function PureMeaning(init: Init, item: Item, args: seq<Word>): Word {
    match item
    case UndefinedItem(d) => StackAt(init.stack, ToSigned(d))
    case Operation(op) => PureValue(init.env, init.world.outside, op, args)
    case Tag(_) => 0
    case _ => PushedValue(init.env, item)
  }

  ghost function Meaning(init: Init, w: World, item: Item, args: seq<Word>): Word {
    if IsLoadItem(item) then Load(item.instr, At(args, 0), w)
    else if IsStoreItem(item) then 0
    else PureMeaning(init, item, args)
  }

  ghost function After(w: World, item: Item, args: seq<Word>): World {
    if IsStoreItem(item) then Store(item.instr, At(args, 0), At(args, 1), w) else w
  }

  datatype Interpreted = Interpreted(nu: seq<Word>, world: World)

  /** The values of all classes, and the world after all stores of the table. */
  ghost function Interp(init: Init, reps: seq<Expr>): (r: Interpreted)
    requires WellFormed(reps)
    ensures |r.nu| == |reps|
  {
    if reps == [] then Interpreted([], init.world)
    else
      var before := Interp(init, reps[..|reps| - 1]);
      var e := reps[|reps| - 1];
      var args := ArgValues(before.nu, e.args);
      Interpreted(before.nu + [Meaning(init, before.world, e.item, args)], After(before.world, e.item, args))
  }

  ghost function Nu(init: Init, reps: seq<Expr>): (nu: seq<Word>)
    requires WellFormed(reps)
    ensures |nu| == |reps|
  {
    Interp(init, reps).nu
  }

  ghost function WorldOf(init: Init, reps: seq<Expr>): World
    requires WellFormed(reps)
  {
    Interp(init, reps).world
  }

  predicate NoStores(reps: seq<Expr>) {
    forall i | 0 <= i < |reps| :: !IsStoreItem(reps[i].item)
  }

  /** The class stands for a value; stores do not. */
  predicate IsValue(reps: seq<Expr>, id: Id) {
    id < |reps| && !IsStoreItem(reps[id].item)
  }

  /** At most two classes, all of which are values. */
  predicate Usable(reps: seq<Expr>, ids: seq<Id>) {
    |ids| <= 2 && forall j | 0 <= j < |ids| :: IsValue(reps, ids[j])
  }

  lemma ValueGrows(reps: seq<Expr>, bigger: seq<Expr>)
    requires reps <= bigger
    ensures forall id | IsValue(reps, id) :: IsValue(bigger, id)
    ensures forall ids | Usable(reps, ids) :: Usable(bigger, ids)
  {
    hide IsStoreItem;
  }

  /** Neither loads nor stores; only those carry a sequence number. */
  predicate IsUnsequenced(e: Expr) {
    !IsMemoryItem(e.item) && e.seqNr == 0
  }

  predicate NoMemory(reps: seq<Expr>) {
    forall i | 0 <= i < |reps| :: IsUnsequenced(reps[i])
  }

  // ----- laws -----

  lemma {:induction false} InterpPrefix(init: Init, reps: seq<Expr>, n: nat)
    requires WellFormed(reps) && n <= |reps|
    ensures Nu(init, reps)[..n] == Nu(init, reps[..n])
    ensures NoStores(reps[n..]) ==> WorldOf(init, reps) == WorldOf(init, reps[..n])
  {
    hide Meaning, Store;
    if n == |reps| {
      assert reps[..n] == reps;
    } else {
      var shorter := reps[..|reps| - 1];
      InterpPrefix(init, shorter, n);
      assert shorter[..n] == reps[..n];
      if NoStores(reps[n..]) {
        forall i | 0 <= i < |shorter[n..]|
          ensures !IsStoreItem(shorter[n..][i].item)
        {
          assert shorter[n..][i] == reps[n..][i];
        }
        assert reps[|reps| - 1] == reps[n..][|reps| - 1 - n];
      }
    }
  }

  lemma {:induction false} OutsideConstant(init: Init, reps: seq<Expr>)
    requires WellFormed(reps)
    ensures WorldOf(init, reps).outside == init.world.outside
  {
    hide Meaning, After;
    if reps != [] {
      OutsideConstant(init, reps[..|reps| - 1]);
      var before := Interp(init, reps[..|reps| - 1]);
      var e := reps[|reps| - 1];
      AfterOutside(before.world, e.item, ArgValues(before.nu, e.args));
    }
  }

  lemma AfterOutside(w: World, item: Item, args: seq<Word>)
    ensures After(w, item, args).outside == w.outside
  {
    hide WriteWord;
  }

  /** The value of a class is the meaning of its representative, in the world of its place. */
  lemma NuAt(init: Init, reps: seq<Expr>, id: Id)
    requires WellFormed(reps) && id < |reps|
    ensures WellFormed(reps[..id])
    ensures ArgsBelow(reps[id], |reps|)
    ensures Nu(init, reps)[id] ==
            Meaning(init, WorldOf(init, reps[..id]), reps[id].item, ArgValues(Nu(init, reps), reps[id].args))
  {
    hide Meaning;
    var upto := reps[..id + 1];
    InterpPrefix(init, reps, id + 1);
    InterpPrefix(init, reps, id);
    assert upto[..|upto| - 1] == reps[..id];
    assert Nu(init, reps)[id] == Nu(init, reps)[..id + 1][id];
    assert ArgValues(Nu(init, reps), reps[id].args) == ArgValues(Nu(init, reps[..id]), reps[id].args);
  }

  /** The values agree with the representatives, as matching rules needs them to. */
  lemma NuDenotes(init: Init, reps: seq<Expr>)
    requires WellFormed(reps)
    ensures Denotes(init.env, init.world.outside, reps, Nu(init, reps))
  {
    hide Interp, Nu, PureMeaning, Meaning, DenotesAt;
    var nu := Nu(init, reps);
    forall id | 0 <= id < |reps|
      ensures DenotesAt(init.env, init.world.outside, reps[id], nu[..id], nu[id])
    {
      NuAt(init, reps, id);
      assert ArgValues(nu, reps[id].args) == ArgValues(nu[..id], reps[id].args);
      MeaningDenotes(init, WorldOf(init, reps[..id]), reps[id], nu[..id]);
    }
  }

  lemma MeaningDenotes(init: Init, w: World, e: Expr, before: seq<Word>)
    requires ArgsBelow(e, |before|)
    ensures DenotesAt(init.env, init.world.outside, e, before, Meaning(init, w, e.item, ArgValues(before, e.args)))
  {
    hide PureValue, Load;
  }

  /** A class has the value of the given pure expression in every initial state. */
  ghost predicate Means(reps: seq<Expr>, item: Item, args: seq<Id>, id: Id)
    requires WellFormed(reps)
  {
    && id < |reps|
    && (forall j | 0 <= j < |args| :: args[j] < |reps|)
    && forall init | ValidInit(init) :: MeansAt(init, reps, item, args, id)
  }

  ghost predicate MeansAt(init: Init, reps: seq<Expr>, item: Item, args: seq<Id>, id: Id)
    requires WellFormed(reps) && id < |reps|
    requires forall j | 0 <= j < |args| :: args[j] < |reps|
  {
    Nu(init, reps)[id] == PureMeaning(init, item, ArgValues(Nu(init, reps), args))
  }

  lemma MeansGrows(reps: seq<Expr>, bigger: seq<Expr>, item: Item, args: seq<Id>, id: Id)
    requires WellFormed(reps) && WellFormed(bigger) && reps <= bigger
    requires Means(reps, item, args, id)
    ensures Means(bigger, item, args, id)
  {
    hide PureMeaning, Interp, ValidInit;
    forall init | ValidInit(init)
      ensures MeansAt(init, bigger, item, args, id)
    {
      assert MeansAt(init, reps, item, args, id);
      InterpPrefix(init, bigger, |reps|);
      assert bigger[..|reps|] == reps;
      ArgValuesPrefix(Nu(init, bigger), |reps|, args);
      assert Nu(init, bigger)[id] == Nu(init, bigger)[..|reps|][id];
    }
  }

  lemma ArgValuesPrefix(nu: seq<Word>, n: nat, args: seq<Id>)
    requires n <= |nu|
    requires forall j | 0 <= j < |args| :: args[j] < n
    ensures ArgValues(nu, args) == ArgValues(nu[..n], args)
  {
  }
}
