/** Which stores of a block have to be executed. Executing only some of the stores of a table, in
    their order, leaves a place of storage or memory as all of them would, provided that for every
    store to the place one that covers it at the same time or later is among them. */
module Replaying {
  import opened Words
  import opened Instructions
  import opened Machine
  import opened Rules
  import opened Semantics
  import opened Classes
  import opened Knowing

  /** A slot of storage or a byte of memory. */
  datatype Place = InStorage(key: Word) | InMemory(address: nat)

  ghost function ReadPlace(w: World, p: Place): int {
    match p
    case InStorage(k) => Slot(w.storage, k)
    case InMemory(a) => w.memory[a] as int
  }

  /** The world after those stores among the first n classes that are in `done`. */
  ghost function Replay(init: Init, nu: seq<Word>, reps: seq<Expr>, n: nat, done: set<Id>): World
    requires WellFormed(reps) && n <= |reps| == |nu|
  {
    if n == 0 then init.world
    else
      var w := Replay(init, nu, reps, n - 1, done);
      if n - 1 in done then After(w, reps[n - 1].item, ArgValues(nu, reps[n - 1].args)) else w
  }

  /** The store writes the place. */
  ghost predicate Covers(nu: seq<Word>, e: Expr, p: Place)
    requires ArgsBelow(e, |nu|)
  {
    && IsStoreItem(e.item) && |e.args| == 2
    && match p
       case InStorage(k) => e.item.instr == SSTORE && nu[e.args[0]] == k
       case InMemory(a) => e.item.instr == MSTORE && nu[e.args[0]] <= a < nu[e.args[0]] as int + 32
  }

  lemma WritePlace(nu: seq<Word>, e: Expr, p: Place, w: World, w': World)
    requires ArgsBelow(e, |nu|) && ArityOk(e)
    ensures var args := ArgValues(nu, e.args);
            if Covers(nu, e, p) then ReadPlace(After(w, e.item, args), p) == ReadPlace(After(w', e.item, args), p)
            else ReadPlace(After(w, e.item, args), p) == ReadPlace(w, p)
  {
    hide ByteOf, IsPure, ArgCount;
    var args := ArgValues(nu, e.args);
    if IsStoreItem(e.item) {
      StoreHasTwo(e);
      assert args[0] == nu[e.args[0]];
    }
  }

  lemma StoreHasTwo(e: Expr)
    requires ArityOk(e) && IsStoreItem(e.item)
    ensures |e.args| == 2
  {
  }

  /** Every store to the place is followed, or is itself, one that is executed. */
  ghost predicate Kept(nu: seq<Word>, reps: seq<Expr>, n: nat, done: set<Id>, p: Place)
    requires WellFormed(reps) && n <= |reps| == |nu|
  {
    forall s | 0 <= s < n && Covers(nu, reps[s], p) :: KeptBy(nu, reps, s, n, done, p)
  }

  ghost predicate KeptBy(nu: seq<Word>, reps: seq<Expr>, s: nat, n: nat, done: set<Id>, p: Place)
    requires WellFormed(reps) && n <= |reps| == |nu|
  {
    exists t | s <= t < n :: t in done && Covers(nu, reps[t], p)
  }

  predicate AllArityOk(reps: seq<Expr>) {
    forall i | 0 <= i < |reps| :: ArityOk(reps[i])
  }

  lemma {:induction false} SamePlace(init: Init, reps: seq<Expr>, n: nat, done: set<Id>, p: Place)
    requires WellFormed(reps) && AllArityOk(reps) && n <= |reps|
    requires Kept(Nu(init, reps), reps, n, done, p)
    ensures ReadPlace(Replay(init, Nu(init, reps), reps, n, done), p) == ReadPlace(WorldOf(init, reps[..n]), p)
  {
    hide Nu, ReadPlace, ArityOk, After, Interp, WorldOf, Covers, Kept;
    var nu := Nu(init, reps);
    if n == 0 {
      EmptyWorld(init, reps);
    } else {
      var e := reps[n - 1];
      WorldStep(init, reps, n);
      var w, w' := Replay(init, nu, reps, n - 1, done), WorldOf(init, reps[..n - 1]);
      if Covers(nu, e, p) {
        KeptLast(nu, reps, n, done, p);
        WritePlace(nu, e, p, w, w');
      } else {
        KeptBefore(nu, reps, n, done, p);
        SamePlace(init, reps, n - 1, done, p);
        WritePlace(nu, e, p, w, w);
        WritePlace(nu, e, p, w', w');
      }
    }
  }

  lemma EmptyWorld(init: Init, reps: seq<Expr>)
    requires WellFormed(reps)
    ensures WorldOf(init, reps[..0]) == init.world
  {
  }

  lemma KeptLast(nu: seq<Word>, reps: seq<Expr>, n: nat, done: set<Id>, p: Place)
    requires WellFormed(reps) && 0 < n <= |reps| == |nu| && Kept(nu, reps, n, done, p) && Covers(nu, reps[n - 1], p)
    ensures n - 1 in done
  {
    hide Covers;
    assert KeptBy(nu, reps, n - 1, n, done, p);
  }

  lemma KeptBefore(nu: seq<Word>, reps: seq<Expr>, n: nat, done: set<Id>, p: Place)
    requires WellFormed(reps) && 0 < n <= |reps| == |nu| && Kept(nu, reps, n, done, p) && !Covers(nu, reps[n - 1], p)
    ensures Kept(nu, reps, n - 1, done, p)
  {
    hide Covers;
    forall s | 0 <= s < n - 1 && Covers(nu, reps[s], p)
      ensures KeptBy(nu, reps, s, n - 1, done, p)
    {
      assert KeptBy(nu, reps, s, n, done, p);
      var t :| s <= t < n && t in done && Covers(nu, reps[t], p);
      assert t < n - 1;
    }
  }

  lemma WorldStep(init: Init, reps: seq<Expr>, n: nat)
    requires WellFormed(reps) && 0 < n <= |reps|
    ensures WellFormed(reps[..n]) && WellFormed(reps[..n - 1]) && ArgsBelow(reps[n - 1], |reps|)
    ensures WorldOf(init, reps[..n]) ==
            After(WorldOf(init, reps[..n - 1]), reps[n - 1].item, ArgValues(Nu(init, reps), reps[n - 1].args))
  {
    hide After, Meaning;
    var upto := reps[..n];
    assert upto[..|upto| - 1] == reps[..n - 1] && upto[|upto| - 1] == reps[n - 1];
    InterpPrefix(init, reps, n - 1);
    ArgValuesPrefix(Nu(init, reps), n - 1, reps[n - 1].args);
  }

  // ----- the order of execution -----

  /** Stores that are not executed do not matter. */
  lemma {:induction false} ReplayOnly(init: Init, nu: seq<Word>, reps: seq<Expr>, n: nat, done: set<Id>, done': set<Id>)
    requires WellFormed(reps) && n <= |reps| == |nu|
    requires forall i | 0 <= i < n :: i in done <==> i in done'
    ensures Replay(init, nu, reps, n, done) == Replay(init, nu, reps, n, done')
  {
    hide After;
    if n > 0 {
      ReplayOnly(init, nu, reps, n - 1, done, done');
    }
  }

  lemma {:induction false} ReplayBeyond(init: Init, nu: seq<Word>, reps: seq<Expr>, m: nat, n: nat, done: set<Id>)
    requires WellFormed(reps) && m <= n <= |reps| == |nu|
    requires forall i | i in done :: i < m
    ensures Replay(init, nu, reps, n, done) == Replay(init, nu, reps, m, done)
  {
    hide After;
    if m < n {
      ReplayBeyond(init, nu, reps, m, n - 1, done);
    }
  }

  /** Executing one more store behind all others. */
  lemma ReplayNext(init: Init, nu: seq<Word>, reps: seq<Expr>, c: Id, done: set<Id>)
    requires WellFormed(reps) && c < |reps| == |nu|
    requires forall i | i in done :: i < c
    ensures ArgsBelow(reps[c], |nu|)
    ensures Replay(init, nu, reps, |reps|, done + {c}) ==
            After(Replay(init, nu, reps, |reps|, done), reps[c].item, ArgValues(nu, reps[c].args))
  {
    hide After;
    ReplayBeyond(init, nu, reps, c + 1, |reps|, done + {c});
    ReplayBeyond(init, nu, reps, c, |reps|, done);
    ReplayOnly(init, nu, reps, c, done, done + {c});
  }

  lemma ReplayNothing(init: Init, nu: seq<Word>, reps: seq<Expr>)
    requires WellFormed(reps) && |reps| == |nu|
    ensures Replay(init, nu, reps, |reps|, {}) == init.world
  {
    ReplayBeyond(init, nu, reps, 0, |reps|, {});
  }

  // ----- loads -----

  /** A later or the same store to the same slot class is executed. */
  ghost predicate Overwritten(reps: seq<Expr>, s: Id, n: nat, done: set<Id>)
    requires n <= |reps| && s < n
  {
    exists t | s <= t < n :: t in done && SameSlot(reps[s], reps[t])
  }

  predicate SameSlot(e: Expr, f: Expr) {
    e.item == f.item && |e.args| == 2 && |f.args| == 2 && e.args[0] == f.args[0]
  }

  /** Loads and stores of storage touch different slots, those of memory do not overlap. */
  ghost predicate Independent(reps: seq<Expr>, store: Opcode, a: Id, b: Id)
    requires WellFormed(reps)
  {
    if store == SSTORE then AlwaysDifferent(reps, a, b) else AlwaysApart(reps, a, b)
  }

  /** All stores that the load depends on are executed, in their last form before the load. */
  ghost predicate LoadReady(reps: seq<Expr>, c: Id, done: set<Id>)
    requires WellFormed(reps) && c < |reps|
  {
    && IsLoadItem(reps[c].item) && |reps[c].args| == 1
    && (forall i | i in done :: i < c)
    && forall s | 0 <= s < c && IsStoreItem(reps[s].item) && LoadOf(reps[s].item.instr) == reps[c].item.instr && |reps[s].args| == 2 ::
         Independent(reps, reps[s].item.instr, reps[s].args[0], reps[c].args[0]) || Overwritten(reps, s, c, done)
  }

  ghost predicate InRange(load: Opcode, slot: Word, p: Place) {
    match p
    case InStorage(k) => load == SLOAD && k == slot
    case InMemory(a) => load == MLOAD && slot <= a < slot as int + 32
  }

  lemma SameLoad(load: Opcode, slot: Word, w: World, w': World)
    requires IsLoad(load)
    requires forall p | InRange(load, slot, p) :: ReadPlace(w, p) == ReadPlace(w', p)
    ensures Load(load, slot, w) == Load(load, slot, w')
  {
    hide FromBytes;
    if load == SLOAD {
      assert InRange(load, slot, InStorage(slot));
      assert ReadPlace(w, InStorage(slot)) == ReadPlace(w', InStorage(slot));
    } else {
      forall a: nat | slot <= a < slot as int + 32
        ensures w.memory[a] == w'.memory[a]
      {
        assert InRange(load, slot, InMemory(a));
        assert ReadPlace(w, InMemory(a)) == ReadPlace(w', InMemory(a));
        SameOctet(w.memory[a], w'.memory[a]);
      }
      assert ReadBytes(w.memory, slot, 32) == ReadBytes(w'.memory, slot, 32);
    }
  }

  lemma SameOctet(x: Octet, y: Octet)
    requires x as int == y as int
    ensures x == y
  {
  }

  /** A store that writes into the range of a load is not independent of it. */
  lemma CoverInRange(init: Init, reps: seq<Expr>, s: Id, c: Id, p: Place)
    requires WellFormed(reps) && s < |reps| && c < |reps| && ValidInit(init)
    requires ArgsBelow(reps[s], |reps|) && Covers(Nu(init, reps), reps[s], p)
    requires IsLoadItem(reps[c].item) && |reps[c].args| == 1 && reps[c].args[0] < |reps|
    requires InRange(reps[c].item.instr, Nu(init, reps)[reps[c].args[0]], p)
    ensures LoadOf(reps[s].item.instr) == reps[c].item.instr
    ensures !Independent(reps, reps[s].item.instr, reps[s].args[0], reps[c].args[0])
  {
    hide Nu, ValidInit;
  }

  /** The executed stores give every load that is ready the value it has in the block. */
  lemma LoadNeeded(init: Init, reps: seq<Expr>, c: Id, done: set<Id>)
    requires WellFormed(reps) && AllArityOk(reps) && c < |reps| && ValidInit(init) && LoadReady(reps, c, done)
    ensures reps[c].args[0] < |reps|
    ensures Load(reps[c].item.instr, Nu(init, reps)[reps[c].args[0]], Replay(init, Nu(init, reps), reps, |reps|, done)) ==
            Nu(init, reps)[c]
  {
    hide Nu, Interp, Load, Replay, Kept, InRange, Covers, ValidInit, Independent, ArityOk, ReadPlace;
    var nu := Nu(init, reps);
    var load, slot := reps[c].item.instr, nu[reps[c].args[0]];
    NuAt(init, reps, c);
    assert ArgValues(nu, reps[c].args) == [slot];
    ReplayBeyond(init, nu, reps, c, |reps|, done);
    var w, w' := Replay(init, nu, reps, c, done), WorldOf(init, reps[..c]);
    forall p | InRange(load, slot, p)
      ensures ReadPlace(w, p) == ReadPlace(w', p)
    {
      ReadyKept(init, reps, c, done, p);
      SamePlace(init, reps, c, done, p);
    }
    SameLoad(load, slot, w, w');
  }

  lemma ReadyKept(init: Init, reps: seq<Expr>, c: Id, done: set<Id>, p: Place)
    requires WellFormed(reps) && c < |reps| && ValidInit(init) && LoadReady(reps, c, done)
    requires reps[c].args[0] < |reps| && InRange(reps[c].item.instr, Nu(init, reps)[reps[c].args[0]], p)
    ensures Kept(Nu(init, reps), reps, c, done, p)
  {
    hide Nu, InRange, ValidInit, Independent, Covers;
    var nu := Nu(init, reps);
    forall s | 0 <= s < c && Covers(nu, reps[s], p)
      ensures KeptBy(nu, reps, s, c, done, p)
    {
      CoverInRange(init, reps, s, c, p);
      CoverShape(nu, reps[s], p);
      assert Overwritten(reps, s, c, done);
      var t :| s <= t < c && t in done && SameSlot(reps[s], reps[t]);
      CoverSame(nu, reps[s], reps[t], p);
    }
  }

  lemma CoverShape(nu: seq<Word>, e: Expr, p: Place)
    requires ArgsBelow(e, |nu|) && Covers(nu, e, p)
    ensures IsStoreItem(e.item) && |e.args| == 2
  {
  }

  lemma CoverSame(nu: seq<Word>, e: Expr, f: Expr, p: Place)
    requires ArgsBelow(e, |nu|) && ArgsBelow(f, |nu|) && Covers(nu, e, p) && SameSlot(e, f)
    ensures Covers(nu, f, p)
  {
  }

  // ----- the final world -----

  /** Executing the last store to every slot class gives the world after all stores. */
  lemma FinalWorld(init: Init, reps: seq<Expr>, done: set<Id>)
    requires WellFormed(reps) && AllArityOk(reps)
    requires forall s | 0 <= s < |reps| && IsStoreItem(reps[s].item) :: Overwritten(reps, s, |reps|, done)
    ensures Replay(init, Nu(init, reps), reps, |reps|, done) == WorldOf(init, reps)
  {
    hide Nu, Interp, Replay, Kept, Covers, ArityOk, ReadPlace, WorldOf;
    var nu := Nu(init, reps);
    var w, w' := Replay(init, nu, reps, |reps|, done), WorldOf(init, reps);
    assert reps[..|reps|] == reps;
    forall p: Place
      ensures ReadPlace(w, p) == ReadPlace(w', p)
    {
      FinalKept(nu, reps, done, p);
      SamePlace(init, reps, |reps|, done, p);
    }
    OutsideConstant(init, reps);
    ReplayOutside(init, nu, reps, |reps|, done);
    SameWorld(w, w');
  }

  lemma FinalKept(nu: seq<Word>, reps: seq<Expr>, done: set<Id>, p: Place)
    requires WellFormed(reps) && |nu| == |reps|
    requires forall s | 0 <= s < |reps| && IsStoreItem(reps[s].item) :: Overwritten(reps, s, |reps|, done)
    ensures Kept(nu, reps, |reps|, done, p)
  {
    hide Covers;
    forall s | 0 <= s < |reps| && Covers(nu, reps[s], p)
      ensures KeptBy(nu, reps, s, |reps|, done, p)
    {
      CoverShape(nu, reps[s], p);
      var t :| s <= t < |reps| && t in done && SameSlot(reps[s], reps[t]);
      CoverSame(nu, reps[s], reps[t], p);
    }
  }

  lemma {:induction false} ReplayOutside(init: Init, nu: seq<Word>, reps: seq<Expr>, n: nat, done: set<Id>)
    requires WellFormed(reps) && n <= |reps| == |nu|
    ensures Replay(init, nu, reps, n, done).outside == init.world.outside
  {
    hide After;
    if n > 0 {
      ReplayOutside(init, nu, reps, n - 1, done);
      AfterOutside(Replay(init, nu, reps, n - 1, done), reps[n - 1].item, ArgValues(nu, reps[n - 1].args));
    }
  }

  lemma SameWorld(w: World, w': World)
    requires forall p :: ReadPlace(w, p) == ReadPlace(w', p)
    requires w.outside == w'.outside
    ensures w == w'
  {
    forall k: Word
      ensures w.storage[k] == w'.storage[k]
    {
      assert ReadPlace(w, InStorage(k)) == ReadPlace(w', InStorage(k));
    }
    assert w.storage == w'.storage;
    forall a: nat
      ensures w.memory[a] == w'.memory[a]
    {
      assert ReadPlace(w, InMemory(a)) == ReadPlace(w', InMemory(a));
      SameOctet(w.memory[a], w'.memory[a]);
    }
    assert w.memory == w'.memory;
  }
}
