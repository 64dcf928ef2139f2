/** Which storage return variables may be left unassigned when a function ends: the work list of
    libsolidity/analysis/ControlFlowAnalyzer.cpp:76-126. A node of the control flow graph is known by
    the tracked variables it assigns, references from inline assembly or returns; it "kills" them. */
module UnassignedReturns {
  type Var = nat
  type Node = nat

  datatype Graph = Graph(exits: seq<seq<Node>>, kills: seq<set<Var>>, entry: Node, tracked: set<Var>)

  predicate WellFormed(g: Graph) {
    && |g.exits| == |g.kills| && g.entry < |g.exits|
    && forall x, i | 0 <= x < |g.exits| && 0 <= i < |g.exits[x]| :: g.exits[x][i] < |g.exits|
  }

  // ----- what is asked for -----

  ghost predicate IsPath(g: Graph, p: seq<Node>)
    requires WellFormed(g)
  {
    && |p| > 0 && p[0] == g.entry
    && (forall i | 0 <= i < |p| :: p[i] < |g.exits|)
    && (forall i | 0 <= i < |p| - 1 :: p[i + 1] in g.exits[p[i]])
  }

  /** A path from the entry to x on which no node, x included, kills v. */
  ghost predicate Leaves(g: Graph, p: seq<Node>, x: Node, v: Var)
    requires WellFormed(g)
  {
    IsPath(g, p) && p[|p| - 1] == x && forall i | 0 <= i < |p| :: v !in g.kills[p[i]]
  }

  /** Some path from the entry through x leaves v unassigned. */
  ghost predicate Survives(g: Graph, x: Node, v: Var)
    requires WellFormed(g)
  {
    v in g.tracked && exists p :: Leaves(g, p, x, v)
  }

  /** Some path reaches x with v unassigned. */
  ghost predicate Arrives(g: Graph, x: Node, v: Var)
    requires WellFormed(g)
  {
    v in g.tracked && (x == g.entry || exists p :: FlowsFrom(g, p, x, v))
  }

  ghost predicate FlowsFrom(g: Graph, p: Node, x: Node, v: Var)
    requires WellFormed(g)
  {
    p < |g.exits| && x in g.exits[p] && Survives(g, p, v)
  }

  lemma SurvivesIsArrives(g: Graph, x: Node, v: Var)
    requires WellFormed(g) && x < |g.exits|
    ensures Survives(g, x, v) <==> Arrives(g, x, v) && v !in g.kills[x]
  {
    if Survives(g, x, v) {
      var p :| Leaves(g, p, x, v);
      if |p| > 1 {
        var front := p[..|p| - 1];
        assert Leaves(g, front, front[|front| - 1], v);
        assert p[|p| - 2 + 1] in g.exits[p[|p| - 2]];
        assert FlowsFrom(g, p[|p| - 2], x, v);
      }
    }
    if Arrives(g, x, v) && v !in g.kills[x] {
      if x == g.entry {
        assert Leaves(g, [x], x, v);
      } else {
        var y :| FlowsFrom(g, y, x, v);
        var p :| Leaves(g, p, y, v);
        LongerPath(g, p, y, x, v);
      }
    }
  }

  lemma LongerPath(g: Graph, p: seq<Node>, y: Node, x: Node, v: Var)
    requires WellFormed(g) && x < |g.exits| && Leaves(g, p, y, v) && x in g.exits[y] && v !in g.kills[x]
    ensures Leaves(g, p + [x], x, v)
  {
    var q := p + [x];
    forall i | 0 <= i < |q| - 1
      ensures q[i + 1] in g.exits[q[i]]
    {
      if i < |p| - 1 {
        assert p[i + 1] in g.exits[p[i]];
      }
    }
  }

  // ----- the work list -----

  /** The sets of unassigned variables, and the nodes still to be traversed with the next one last. */
  datatype State = State(sets: seq<set<Var>>, stack: seq<Node>)

  predicate ValidState(g: Graph, s: State) {
    |s.sets| == |g.exits| && forall i | 0 <= i < |s.stack| :: s.stack[i] < |g.exits|
  }

  function Init(g: Graph): State
    requires WellFormed(g)
  {
    State(seq(|g.exits|, i => if i == g.entry then g.tracked else {}), [g.entry])
  }

  /** Passes the variables on to one exit, which is traversed (again) if that is news to it. */
  function PassOn(s: State, out: set<Var>, y: Node): State
    requires y < |s.sets|
  {
    if out <= s.sets[y] then s else State(s.sets[y := s.sets[y] + out], s.stack + [y])
  }

  function Flow(s: State, out: set<Var>, exits: seq<Node>): (t: State)
    requires forall i | 0 <= i < |exits| :: exits[i] < |s.sets|
    ensures |t.sets| == |s.sets|
    decreases |exits|
  {
    if exits == [] then s else Flow(PassOn(s, out, exits[0]), out, exits[1..])
  }

  function Out(g: Graph, s: State, x: Node): set<Var>
    requires WellFormed(g) && ValidState(g, s) && x < |g.exits|
  {
    s.sets[x] - g.kills[x]
  }

  function Top(s: State): Node
    requires s.stack != []
  {
    s.stack[|s.stack| - 1]
  }

  /** The state after taking a node off the stack and killing its variables. */
  function Taken(g: Graph, s: State): (t: State)
    requires WellFormed(g) && ValidState(g, s) && s.stack != []
    ensures ValidState(g, t)
  {
    State(s.sets[Top(s) := Out(g, s, Top(s))], s.stack[..|s.stack| - 1])
  }

  /** One round of the loop. */
  function Step(g: Graph, s: State): (t: State)
    requires WellFormed(g) && ValidState(g, s) && s.stack != []
    ensures ValidState(g, t)
  {
    var x := Top(s);
    FlowValid(g, Taken(g, s), Out(g, s, x), g.exits[x]);
    Flow(Taken(g, s), Out(g, s, x), g.exits[x])
  }

  lemma {:induction false} FlowValid(g: Graph, s: State, out: set<Var>, exits: seq<Node>)
    requires ValidState(g, s) && forall i | 0 <= i < |exits| :: exits[i] < |g.exits|
    ensures ValidState(g, Flow(s, out, exits))
    decreases |exits|
  {
    if exits != [] {
      FlowValid(g, PassOn(s, out, exits[0]), out, exits[1..]);
    }
  }

  /** Everything one round does to the sets and the stack. */
  lemma {:induction false} FlowFacts(s: State, out: set<Var>, exits: seq<Node>)
    requires forall i | 0 <= i < |exits| :: exits[i] < |s.sets|
    ensures var t := Flow(s, out, exits);
            && (forall y | 0 <= y < |s.sets| :: t.sets[y] == if y in exits then s.sets[y] + out else s.sets[y])
            && (forall y | y in s.stack :: y in t.stack)
            && (forall y | 0 <= y < |s.sets| && t.sets[y] != s.sets[y] :: y in t.stack)
            && (forall y | y in t.stack :: y in s.stack || (y in exits && !(out <= s.sets[y])))
    decreases |exits|
  {
    if exits != [] {
      FlowFacts(PassOn(s, out, exits[0]), out, exits[1..]);
      assert exits == [exits[0]] + exits[1..];
    }
  }

  // ----- safety: what holds after every round -----

  ghost predicate Sound(g: Graph, s: State)
    requires WellFormed(g) && ValidState(g, s)
  {
    forall x, v | 0 <= x < |s.sets| && v in s.sets[x] :: Arrives(g, x, v)
  }

  predicate Settled(g: Graph, s: State, x: Node)
    requires WellFormed(g) && ValidState(g, s) && x < |g.exits|
  {
    s.sets[x] !! g.kills[x] && forall i | 0 <= i < |g.exits[x]| :: s.sets[x] - g.kills[g.exits[x][i]] <= s.sets[g.exits[x][i]]
  }

  ghost predicate Inv(g: Graph, s: State)
    requires WellFormed(g)
  {
    && ValidState(g, s) && Sound(g, s)
    && g.tracked - g.kills[g.entry] <= s.sets[g.entry]
    && forall x | 0 <= x < |g.exits| && x !in s.stack :: Settled(g, s, x)
  }

  lemma InitInv(g: Graph)
    requires WellFormed(g)
    ensures Inv(g, Init(g))
  {
    var s := Init(g);
    assert g.entry in s.stack;
  }

  lemma StepInv(g: Graph, s: State)
    requires WellFormed(g) && Inv(g, s) && s.stack != []
    ensures Inv(g, Step(g, s))
  {
    hide Arrives, Survives, Flow, Settled;
    var x, m, t := Top(s), Taken(g, s), Step(g, s);
    var out := Out(g, s, x);
    FlowFacts(m, out, g.exits[x]);
    forall y, v | 0 <= y < |t.sets| && v in t.sets[y]
      ensures Arrives(g, y, v)
    {
      assert t.sets[y] == if y in g.exits[x] then m.sets[y] + out else m.sets[y];
      assert m.sets[y] <= s.sets[y];
      if v !in s.sets[y] {
        OutArrives(g, s, x, y, v);
      }
    }
    assert m.sets[g.entry] <= t.sets[g.entry];
    forall y | 0 <= y < |g.exits| && y !in t.stack
      ensures Settled(g, t, y)
    {
      StillSettled(g, s, y);
    }
  }

  lemma OutArrives(g: Graph, s: State, x: Node, y: Node, v: Var)
    requires WellFormed(g) && ValidState(g, s) && Sound(g, s) && x < |g.exits| && v in Out(g, s, x) && y in g.exits[x]
    ensures Arrives(g, y, v)
  {
    hide Survives;
    assert Arrives(g, x, v);
    SurvivesIsArrives(g, x, v);
    assert FlowsFrom(g, x, y, v);
  }

  lemma OthersStay(s: State, y: Node)
    requires s.stack != []
    ensures y in s.stack <==> y == Top(s) || y in s.stack[..|s.stack| - 1]
  {
    assert s.stack == s.stack[..|s.stack| - 1] + [Top(s)];
  }

  lemma StillSettled(g: Graph, s: State, y: Node)
    requires WellFormed(g) && Inv(g, s) && s.stack != [] && y < |g.exits| && y !in Step(g, s).stack
    ensures Settled(g, Step(g, s), y)
  {
    hide Sound, Flow;
    var x, m, t := Top(s), Taken(g, s), Step(g, s);
    var out := Out(g, s, x);
    FlowFacts(m, out, g.exits[x]);
    assert t.sets[y] == m.sets[y];
    if y != x {
      OthersStay(s, y);
      assert Settled(g, s, y);
    }
    forall i | 0 <= i < |g.exits[y]|
      ensures t.sets[y] - g.kills[g.exits[y][i]] <= t.sets[g.exits[y][i]]
    {
      var z := g.exits[y][i];
      if y == x {
        assert z in g.exits[x];
      } else {
        assert s.sets[y] - g.kills[z] <= s.sets[z];
      }
    }
  }

  /** When nothing is left to traverse, every node holds exactly what may be unassigned there. */
  lemma FinalExact(g: Graph, s: State, x: Node, v: Var)
    requires WellFormed(g) && Inv(g, s) && s.stack == [] && x < |g.exits|
    ensures v in s.sets[x] <==> Survives(g, x, v)
  {
    hide Arrives;
    assert Settled(g, s, x);
    if v in s.sets[x] {
      assert Arrives(g, x, v);
      SurvivesIsArrives(g, x, v);
    }
    if Survives(g, x, v) {
      var p :| Leaves(g, p, x, v);
      FinalComplete(g, s, p, v);
    }
  }

  lemma {:induction false} FinalComplete(g: Graph, s: State, p: seq<Node>, v: Var)
    requires WellFormed(g) && Inv(g, s) && s.stack == [] && v in g.tracked
    requires IsPath(g, p) && forall i | 0 <= i < |p| :: v !in g.kills[p[i]]
    ensures v in s.sets[p[|p| - 1]]
    decreases |p|
  {
    hide Sound;
    if |p| > 1 {
      var n := |p| - 1;
      FinalComplete(g, s, p[..n], v);
      var y := p[n - 1];
      assert Settled(g, s, y);
      assert p[n - 1 + 1] in g.exits[p[n - 1]];
      var i :| 0 <= i < |g.exits[y]| && g.exits[y][i] == p[n];
    }
  }

  // ----- whole runs -----

  /** The state after n rounds; a finished state stays. */
  function After(g: Graph, n: nat): (s: State)
    requires WellFormed(g)
    ensures ValidState(g, s)
  {
    if n == 0 then Init(g)
    else
      var s := After(g, n - 1);
      if s.stack == [] then s else Step(g, s)
  }

  lemma {:induction false} AfterInv(g: Graph, n: nat)
    requires WellFormed(g)
    ensures Inv(g, After(g, n))
  {
    hide Inv, Step, Init;
    if n == 0 {
      InitInv(g);
    } else {
      AfterInv(g, n - 1);
      if After(g, n - 1).stack != [] {
        StepInv(g, After(g, n - 1));
      }
    }
  }

  ghost predicate Ends(g: Graph)
    requires WellFormed(g)
  {
    exists n: nat :: After(g, n).stack == []
  }

  /** Whenever the loop ends, each node's set is what some path leaves unassigned. */
  lemma EndsExact(g: Graph, n: nat, x: Node, v: Var)
    requires WellFormed(g) && x < |g.exits| && After(g, n).stack == []
    ensures v in After(g, n).sets[x] <==> Survives(g, x, v)
  {
    hide After, Inv;
    AfterInv(g, n);
    FinalExact(g, After(g, n), x, v);
  }

  // ----- when the loop ends -----

  /** Traversing x makes y news again: x passes on a variable that y kills. */
  ghost predicate Revives(g: Graph, x: Node, y: Node)
    requires WellFormed(g)
  {
    x < |g.exits| && y < |g.exits| && y in g.exits[x] && exists v :: Survives(g, x, v) && v in g.kills[y]
  }

  ghost predicate IsWalk(g: Graph, c: seq<Node>)
    requires WellFormed(g)
  {
    && |c| >= 1 && (forall i | 0 <= i < |c| :: c[i] < |g.exits|)
    && (forall i | 0 <= i < |c| - 1 :: Revives(g, c[i], c[i + 1]))
  }

  ghost predicate RevivalCycle(g: Graph, c: seq<Node>)
    requires WellFormed(g)
  {
    |c| >= 2 && c[0] == c[|c| - 1] && IsWalk(g, c)
  }

  /** No nodes revive each other in a circle. */
  ghost predicate Calm(g: Graph)
    requires WellFormed(g)
  {
    forall c :: !RevivalCycle(g, c)
  }

  // -- a calm graph: the length of walks is bounded --

  function NodesOf(c: seq<Node>): set<Node> {
    set i | 0 <= i < |c| :: c[i]
  }

  lemma {:induction false} DistinctCount(c: seq<Node>)
    requires forall i, j | 0 <= i < j < |c| :: c[i] != c[j]
    ensures |NodesOf(c)| == |c|
  {
    if c != [] {
      var front := c[..|c| - 1];
      DistinctCount(front);
      assert NodesOf(c) == NodesOf(front) + {c[|c| - 1]};
      assert c[|c| - 1] !in NodesOf(front);
    }
  }

  lemma {:induction false} BoundedCount(s: set<Node>, n: nat)
    requires forall x | x in s :: x < n
    ensures |s| <= n
  {
    if n == 0 {
      assert s == {};
    } else {
      BoundedCount(s - {n - 1}, n - 1);
    }
  }

  lemma Repeats(c: seq<Node>, n: nat)
    requires |c| > n && forall i | 0 <= i < |c| :: c[i] < n
    ensures exists i, j :: 0 <= i < j < |c| && c[i] == c[j]
  {
    if forall i, j | 0 <= i < j < |c| :: c[i] != c[j] {
      DistinctCount(c);
      BoundedCount(NodesOf(c), n);
    }
  }

  lemma SubWalk(g: Graph, c: seq<Node>, i: nat, j: nat)
    requires WellFormed(g) && IsWalk(g, c) && i < j <= |c|
    ensures IsWalk(g, c[i..j])
  {
    hide Revives;
    forall k | 0 <= k < |c[i..j]| - 1
      ensures Revives(g, c[i..j][k], c[i..j][k + 1])
    {
      assert Revives(g, c[i + k], c[i + k + 1]);
    }
  }

  ghost predicate WalkFrom(g: Graph, c: seq<Node>, x: Node, k: nat)
    requires WellFormed(g)
  {
    IsWalk(g, c) && |c| == k + 1 && c[0] == x
  }

  ghost predicate NoWalk(g: Graph, x: Node, k: nat)
    requires WellFormed(g)
  {
    forall c :: !WalkFrom(g, c, x, k)
  }

  lemma CycleWithin(g: Graph, c: seq<Node>)
    requires WellFormed(g) && IsWalk(g, c) && |c| > |g.exits|
    ensures exists d :: RevivalCycle(g, d)
  {
    hide Revives, Survives;
    Repeats(c, |g.exits|);
    var i, j :| 0 <= i < j < |c| && c[i] == c[j];
    SubWalk(g, c, i, j + 1);
    assert RevivalCycle(g, c[i..j + 1]);
  }

  lemma CalmBound(g: Graph, x: Node)
    requires WellFormed(g) && Calm(g)
    ensures NoWalk(g, x, |g.exits|)
  {
    hide IsWalk, RevivalCycle;
    forall c
      ensures !WalkFrom(g, c, x, |g.exits|)
    {
      if WalkFrom(g, c, x, |g.exits|) {
        CycleWithin(g, c);
      }
    }
  }

  lemma ExtendWalk(g: Graph, x: Node, y: Node, c: seq<Node>, k: nat)
    requires WellFormed(g) && Revives(g, x, y) && WalkFrom(g, c, y, k)
    ensures WalkFrom(g, [x] + c, x, k + 1)
  {
    hide Survives;
    var d := [x] + c;
    forall i | 0 <= i < |d| - 1
      ensures Revives(g, d[i], d[i + 1])
    {
      if i > 0 {
        assert Revives(g, c[i - 1], c[i - 1 + 1]);
      }
    }
  }

  lemma WalkBehind(g: Graph, x: Node, y: Node, k: nat)
    requires WellFormed(g) && Revives(g, x, y) && NoWalk(g, x, k + 1)
    ensures k > 0 && NoWalk(g, y, k)
  {
    hide Revives;
    if k == 0 {
      Trivial(g, x, y);
      ExtendWalk(g, x, y, [y], 0);
    }
    forall c
      ensures !WalkFrom(g, c, y, k)
    {
      if WalkFrom(g, c, y, k) {
        ExtendWalk(g, x, y, c, k);
      }
    }
  }

  lemma Trivial(g: Graph, x: Node, y: Node)
    requires WellFormed(g) && Revives(g, x, y)
    ensures WalkFrom(g, [y], y, 0)
  {
  }

  // -- the weight of a node: how many rounds it can cause without any real progress --

  ghost function Weight(g: Graph, x: Node, k: nat): nat
    requires WellFormed(g) && x < |g.exits|
    decreases k, |g.exits[x]| + 1
  {
    if k == 0 then 1 else 1 + ExitWeight(g, x, g.exits[x], k - 1)
  }

  ghost function ExitWeight(g: Graph, x: Node, exits: seq<Node>, k: nat): nat
    requires WellFormed(g) && forall i | 0 <= i < |exits| :: exits[i] < |g.exits|
    decreases k + 1, |exits|
  {
    if exits == [] then 0
    else (if Revives(g, x, exits[0]) then Weight(g, exits[0], k) else 0) + ExitWeight(g, x, exits[1..], k)
  }

  lemma {:induction false} WeightStable(g: Graph, x: Node, k: nat)
    requires WellFormed(g) && x < |g.exits| && k > 0 && NoWalk(g, x, k)
    ensures Weight(g, x, k + 1) == Weight(g, x, k)
    decreases k, |g.exits[x]| + 1
  {
    hide Revives, NoWalk;
    ExitWeightStable(g, x, g.exits[x], k);
  }

  lemma {:induction false} ExitWeightStable(g: Graph, x: Node, exits: seq<Node>, k: nat)
    requires WellFormed(g) && k > 0 && NoWalk(g, x, k) && forall i | 0 <= i < |exits| :: exits[i] < |g.exits|
    ensures ExitWeight(g, x, exits, k) == ExitWeight(g, x, exits, k - 1)
    decreases k, |exits|
  {
    hide Revives, NoWalk;
    if exits != [] {
      ExitWeightStable(g, x, exits[1..], k);
      if Revives(g, x, exits[0]) {
        WalkBehind(g, x, exits[0], k - 1);
        WeightStable(g, exits[0], k - 1);
      }
    }
  }

  ghost function StackWeight(g: Graph, stack: seq<Node>): nat
    requires WellFormed(g) && forall i | 0 <= i < |stack| :: stack[i] < |g.exits|
  {
    if stack == [] then 0
    else StackWeight(g, stack[..|stack| - 1]) + Weight(g, stack[|stack| - 1], |g.exits|)
  }

  // -- progress: variables that have not yet reached a node --

  ghost function Missing(g: Graph, s: State, n: nat): nat
    requires WellFormed(g) && ValidState(g, s) && n <= |g.exits|
  {
    if n == 0 then 0 else Missing(g, s, n - 1) + |Target(g, n - 1) - s.sets[n - 1]|
  }

  /** What a node's set will be in the end. */
  ghost function Target(g: Graph, x: Node): set<Var>
    requires WellFormed(g)
  {
    set v | v in g.tracked && Survives(g, x, v)
  }

  ghost predicate Keeps(g: Graph, s: State, t: State, x: Node)
    requires WellFormed(g) && ValidState(g, s) && ValidState(g, t) && x < |g.exits|
  {
    Target(g, x) - t.sets[x] <= Target(g, x) - s.sets[x]
  }

  lemma {:induction false} MissingShrinks(g: Graph, s: State, t: State, n: nat)
    requires WellFormed(g) && ValidState(g, s) && ValidState(g, t) && n <= |g.exits|
    requires forall x | 0 <= x < |g.exits| :: Keeps(g, s, t, x)
    ensures Missing(g, t, n) <= Missing(g, s, n)
    ensures (exists x :: 0 <= x < n && Gains(g, s, t, x)) ==> Missing(g, t, n) < Missing(g, s, n)
  {
    hide Target;
    if n > 0 {
      MissingShrinks(g, s, t, n - 1);
      assert Keeps(g, s, t, n - 1);
      SubsetSize(Target(g, n - 1) - t.sets[n - 1], Target(g, n - 1) - s.sets[n - 1]);
    }
  }

  ghost predicate Gains(g: Graph, s: State, t: State, x: Node)
    requires WellFormed(g) && ValidState(g, s) && ValidState(g, t) && x < |g.exits|
  {
    Target(g, x) - t.sets[x] != Target(g, x) - s.sets[x]
  }

  lemma SubsetSize(a: set<Var>, b: set<Var>)
    requires a <= b
    ensures |a| <= |b| && (a != b ==> |a| < |b|)
  {
    assert b == a + (b - a);
    if a != b {
      assert b - a != {};
    }
  }

  // -- one round --

  /** Nothing that survives is passed on: all news are variables that the receiver kills. */
  predicate OnlyKilled(g: Graph, s: State, out: set<Var>, exits: seq<Node>)
    requires WellFormed(g) && ValidState(g, s) && forall i | 0 <= i < |exits| :: exits[i] < |g.exits|
  {
    forall i | 0 <= i < |exits| :: out - s.sets[exits[i]] <= g.kills[exits[i]]
  }

  lemma {:induction false} FlowWeight(g: Graph, s: State, x: Node, out: set<Var>, exits: seq<Node>)
    requires WellFormed(g) && ValidState(g, s) && x < |g.exits|
    requires forall i | 0 <= i < |exits| :: exits[i] < |g.exits| && exits[i] in g.exits[x]
    requires OnlyKilled(g, s, out, exits) && forall v | v in out :: Survives(g, x, v)
    ensures ValidState(g, Flow(s, out, exits))
    ensures StackWeight(g, Flow(s, out, exits).stack) <= StackWeight(g, s.stack) + ExitWeight(g, x, exits, |g.exits|)
    decreases |exits|
  {
    hide Survives, Weight;
    if exits != [] {
      var y := exits[0];
      var m := PassOn(s, out, y);
      assert OnlyKilled(g, m, out, exits[1..]) by {
        assert forall i | 0 <= i < |exits[1..]| :: exits[1..][i] == exits[i + 1];
        assert forall z | 0 <= z < |g.exits| :: s.sets[z] <= m.sets[z];
      }
      FlowWeight(g, m, x, out, exits[1..]);
      if !(out <= s.sets[y]) {
        var v :| v in out && v !in s.sets[y];
        assert v in g.kills[y] by {
          assert out - s.sets[exits[0]] <= g.kills[exits[0]];
        }
        assert Revives(g, x, y);
        assert m.stack[..|m.stack| - 1] == s.stack;
      }
    }
  }

  lemma RoundKeeps(g: Graph, s: State)
    requires WellFormed(g) && Inv(g, s) && s.stack != []
    ensures forall y | 0 <= y < |g.exits| :: Keeps(g, s, Step(g, s), y)
  {
    hide Flow, Inv;
    InvFacts(g, s);
    var x, m, t := Top(s), Taken(g, s), Step(g, s);
    FlowFacts(m, Out(g, s, x), g.exits[x]);
    forall y | 0 <= y < |g.exits|
      ensures Keeps(g, s, t, y)
    {
      NotKilled(g, x);
      assert m.sets[y] <= t.sets[y];
    }
  }

  lemma InvFacts(g: Graph, s: State)
    requires WellFormed(g) && Inv(g, s)
    ensures ValidState(g, s) && Sound(g, s)
  {
  }

  lemma NotKilled(g: Graph, x: Node)
    requires WellFormed(g) && x < |g.exits|
    ensures Target(g, x) !! g.kills[x]
  {
    forall v | v in Target(g, x)
      ensures v !in g.kills[x]
    {
      SurvivesIsArrives(g, x, v);
    }
  }

  /** A round either brings a surviving variable to a node that did not have it, or makes the stack lighter. */
  lemma RoundDecreases(g: Graph, s: State)
    requires WellFormed(g) && Calm(g) && Inv(g, s) && s.stack != []
    ensures var t := Step(g, s);
            || Missing(g, t, |g.exits|) < Missing(g, s, |g.exits|)
            || (Missing(g, t, |g.exits|) == Missing(g, s, |g.exits|) && StackWeight(g, t.stack) < StackWeight(g, s.stack))
  {
    hide Flow, Inv, Calm, Target, Missing, StackWeight, Weight, ExitWeight, Survives;
    InvFacts(g, s);
    var x, m, t := Top(s), Taken(g, s), Step(g, s);
    var out := Out(g, s, x);
    RoundKeeps(g, s);
    MissingShrinks(g, s, t, |g.exits|);
    if OnlyKilled(g, m, out, g.exits[x]) {
      forall v | v in out
        ensures Survives(g, x, v)
      {
        OutSurvives(g, s, x, v);
      }
      assert forall i | 0 <= i < |g.exits[x]| :: g.exits[x][i] in g.exits[x];
      FlowWeight(g, m, x, out, g.exits[x]);
      StackTop(g, s);
      NodeWeight(g, x);
    } else {
      NewsGained(g, s);
    }
  }

  lemma OutSurvives(g: Graph, s: State, x: Node, v: Var)
    requires WellFormed(g) && ValidState(g, s) && Sound(g, s) && x < |g.exits| && v in Out(g, s, x)
    ensures Survives(g, x, v)
  {
    hide Arrives, Survives;
    assert Arrives(g, x, v);
    SurvivesIsArrives(g, x, v);
  }

  lemma StackTop(g: Graph, s: State)
    requires WellFormed(g) && ValidState(g, s) && s.stack != []
    ensures StackWeight(g, s.stack) == StackWeight(g, Taken(g, s).stack) + Weight(g, Top(s), |g.exits|)
  {
    hide Weight;
  }

  lemma NodeWeight(g: Graph, x: Node)
    requires WellFormed(g) && Calm(g) && x < |g.exits|
    ensures Weight(g, x, |g.exits|) == 1 + ExitWeight(g, x, g.exits[x], |g.exits|)
  {
    hide NoWalk, Calm, Revives;
    CalmBound(g, x);
    ExitWeightStable(g, x, g.exits[x], |g.exits|);
  }

  lemma NewsGained(g: Graph, s: State)
    requires WellFormed(g) && ValidState(g, s) && Sound(g, s) && s.stack != []
    requires !OnlyKilled(g, Taken(g, s), Out(g, s, Top(s)), g.exits[Top(s)])
    ensures exists y :: 0 <= y < |g.exits| && Gains(g, s, Step(g, s), y)
  {
    hide Flow, Survives, Sound;
    var x, m, t := Top(s), Taken(g, s), Step(g, s);
    var out := Out(g, s, x);
    FlowFacts(m, out, g.exits[x]);
    var i :| 0 <= i < |g.exits[x]| && !(out - m.sets[g.exits[x][i]] <= g.kills[g.exits[x][i]]);
    var y := g.exits[x][i];
    var v :| v in out - m.sets[y] && v !in g.kills[y];
    OutArrives(g, s, x, y, v);
    SurvivesIsArrives(g, y, v);
    InTracked(g, y, v);
    assert v in t.sets[y] && v in Target(g, y);
    assert v !in s.sets[y];
    assert Gains(g, s, t, y);
  }

  lemma InTracked(g: Graph, y: Node, v: Var)
    requires WellFormed(g) && Survives(g, y, v)
    ensures v in g.tracked
  {
  }

  lemma {:induction false} EndsFrom(g: Graph, n: nat)
    requires WellFormed(g) && Calm(g)
    ensures Ends(g)
    decreases Missing(g, After(g, n), |g.exits|), StackWeight(g, After(g, n).stack)
  {
    hide Calm, Missing, StackWeight, Inv, Step;
    if After(g, n).stack != [] {
      AfterInv(g, n);
      RoundDecreases(g, After(g, n));
      EndsFrom(g, n + 1);
    }
  }

  // -- a graph that is not calm --

  /** The nodes of the circle hold what survives there and wait for nothing. */
  ghost predicate Quiet(g: Graph, s: State, c: seq<Node>)
    requires WellFormed(g) && ValidState(g, s) && forall i | 0 <= i < |c| :: c[i] < |g.exits|
  {
    forall i | 0 <= i < |c| :: QuietAt(g, s, c[i])
  }

  ghost predicate QuietAt(g: Graph, s: State, x: Node)
    requires WellFormed(g) && ValidState(g, s) && x < |g.exits|
  {
    x !in s.stack && forall v :: v in s.sets[x] <==> Survives(g, x, v)
  }

  /** Traversing a node puts on the stack whatever it revives. */
  lemma Revived(g: Graph, s: State, y: Node)
    requires WellFormed(g) && Inv(g, s) && s.stack != [] && Revives(g, Top(s), y)
    requires forall v :: Survives(g, Top(s), v) ==> v in Step(g, s).sets[Top(s)]
    ensures y in Step(g, s).stack
  {
    hide Flow, Survives, Sound;
    var x, m, t := Top(s), Taken(g, s), Step(g, s);
    var out := Out(g, s, x);
    FlowFacts(m, out, g.exits[x]);
    var v :| Survives(g, x, v) && v in g.kills[y];
    assert v in out;
    assert y != x;
    if v in s.sets[y] {
      assert !Settled(g, s, y);
      OthersStay(s, y);
    } else {
      assert v in t.sets[y] && v !in m.sets[y];
    }
  }

  /** If the circle is quiet after a round, it was quiet before. */
  lemma QuietBefore(g: Graph, s: State, c: seq<Node>)
    requires WellFormed(g) && Inv(g, s) && s.stack != [] && RevivalCycle(g, c) && Quiet(g, Step(g, s), c)
    ensures Quiet(g, s, c)
  {
    hide Flow, Survives, Revives, Inv, Step;
    InvFacts(g, s);
    var t := Step(g, s);
    forall i | 0 <= i < |c|
      ensures c[i] != Top(s)
    {
      if c[i] == Top(s) {
        var k := if i < |c| - 1 then i else 0;
        assert Revives(g, c[k], c[k + 1]);
        assert QuietAt(g, t, c[k]) && QuietAt(g, t, c[k + 1]);
        Revived(g, s, c[k + 1]);
      }
    }
    forall i | 0 <= i < |c|
      ensures QuietAt(g, s, c[i])
    {
      assert QuietAt(g, t, c[i]);
      Untouched(g, s, c[i]);
    }
  }

  lemma Untouched(g: Graph, s: State, x: Node)
    requires WellFormed(g) && ValidState(g, s) && s.stack != [] && x < |g.exits| && x != Top(s) && x !in Step(g, s).stack
    ensures x !in s.stack && Step(g, s).sets[x] == s.sets[x]
  {
    hide Flow;
    FlowFacts(Taken(g, s), Out(g, s, Top(s)), g.exits[Top(s)]);
    OthersStay(s, x);
  }

  lemma {:induction false} NeverQuiet(g: Graph, c: seq<Node>, n: nat)
    requires WellFormed(g) && RevivalCycle(g, c)
    ensures !Quiet(g, After(g, n), c)
  {
    hide Inv, Step, Revives;
    if n == 0 {
      NotQuietAtFirst(g, c);
    } else {
      NeverQuiet(g, c, n - 1);
      var s := After(g, n - 1);
      if s.stack != [] {
        AfterInv(g, n - 1);
        if Quiet(g, Step(g, s), c) {
          QuietBefore(g, s, c);
        }
      }
    }
  }

  lemma NotQuietAtFirst(g: Graph, c: seq<Node>)
    requires WellFormed(g) && RevivalCycle(g, c)
    ensures !Quiet(g, Init(g), c)
  {
    hide Survives;
    assert Revives(g, c[0], c[0 + 1]);
    var v :| Survives(g, c[0], v) && v in g.kills[c[1]];
    var s := Init(g);
    if c[0] == g.entry {
      assert c[0] in s.stack;
    } else {
      assert v !in s.sets[c[0]];
    }
    assert !QuietAt(g, s, c[0]);
  }

  lemma QuietAtEnd(g: Graph, n: nat, c: seq<Node>)
    requires WellFormed(g) && After(g, n).stack == [] && forall i | 0 <= i < |c| :: c[i] < |g.exits|
    ensures Quiet(g, After(g, n), c)
  {
    hide Survives, After;
    forall i | 0 <= i < |c|
      ensures QuietAt(g, After(g, n), c[i])
    {
      forall v
        ensures v in After(g, n).sets[c[i]] <==> Survives(g, c[i], v)
      {
        EndsExact(g, n, c[i], v);
      }
    }
  }

  /** The loop ends if and only if no nodes revive each other in a circle. */
  lemma EndsIffCalm(g: Graph)
    requires WellFormed(g)
    ensures Ends(g) <==> Calm(g)
  {
    hide RevivalCycle, After, Quiet;
    if Calm(g) {
      EndsFrom(g, 0);
    }
    if Ends(g) {
      var n: nat :| After(g, n).stack == [];
      forall c
        ensures !RevivalCycle(g, c)
      {
        if RevivalCycle(g, c) {
          CycleNodes(g, c);
          NeverQuiet(g, c, n);
          QuietAtEnd(g, n, c);
        }
      }
    }
  }

  lemma CycleNodes(g: Graph, c: seq<Node>)
    requires WellFormed(g) && RevivalCycle(g, c)
    ensures forall i | 0 <= i < |c| :: c[i] < |g.exits|
  {
    hide Revives;
  }

  /** Every path from the entry to x goes through h. */
  ghost predicate Dominates(g: Graph, h: Node, x: Node)
    requires WellFormed(g)
  {
    forall p | IsPath(g, p) && p[|p| - 1] == x :: h in p
  }

  predicate IsCycle(g: Graph, c: seq<Node>)
    requires WellFormed(g)
  {
    && |c| >= 2 && c[0] == c[|c| - 1] && (forall i | 0 <= i < |c| :: c[i] < |g.exits|)
    && (forall i | 0 <= i < |c| - 1 :: c[i + 1] in g.exits[c[i]])
  }

  /** The cycle can only be entered through its i-th node. */
  ghost predicate EnteredAt(g: Graph, c: seq<Node>, i: nat)
    requires WellFormed(g)
  {
    i < |c| && forall j | 0 <= j < |c| :: Dominates(g, c[i], c[j])
  }

  ghost predicate SingleEntryLoops(g: Graph)
    requires WellFormed(g)
  {
    forall c | IsCycle(g, c) :: exists i :: EnteredAt(g, c, i)
  }

  /** Nothing revives a node that dominates it. */
  lemma DominatorNotRevived(g: Graph, x: Node, h: Node)
    requires WellFormed(g) && Dominates(g, h, x)
    ensures !Revives(g, x, h)
  {
    forall v | h < |g.exits| && Survives(g, x, v)
      ensures v !in g.kills[h]
    {
      var p :| Leaves(g, p, x, v);
      assert h in p;
    }
  }

  lemma RevivalIsCycle(g: Graph, c: seq<Node>)
    requires WellFormed(g) && RevivalCycle(g, c)
    ensures IsCycle(g, c)
  {
    hide Survives;
    forall i | 0 <= i < |c| - 1
      ensures c[i + 1] in g.exits[c[i]]
    {
      assert Revives(g, c[i], c[i + 1]);
    }
  }

  lemma RevivedAt(g: Graph, c: seq<Node>, i: nat) returns (k: nat)
    requires WellFormed(g) && RevivalCycle(g, c) && i < |c|
    ensures k < |c| && Revives(g, c[k], c[i])
  {
    hide Revives;
    k := if i > 0 then i - 1 else |c| - 2;
    assert Revives(g, c[k], c[k + 1]);
  }

  lemma SingleEntryCalm(g: Graph)
    requires WellFormed(g) && SingleEntryLoops(g)
    ensures Calm(g)
  {
    hide Revives, Dominates, IsCycle, RevivalCycle;
    forall c
      ensures !RevivalCycle(g, c)
    {
      if RevivalCycle(g, c) {
        RevivalIsCycle(g, c);
        var i :| EnteredAt(g, c, i);
        var k := RevivedAt(g, c, i);
        DominatorNotRevived(g, c[k], c[i]);
      }
    }
  }

  /** The loop ends if every cycle has a node through which alone it can be entered. */
  lemma SingleEntryLoopsEnd(g: Graph)
    requires WellFormed(g) && SingleEntryLoops(g)
    ensures Ends(g)
  {
    hide Calm, Ends, SingleEntryLoops;
    SingleEntryCalm(g);
    EndsIffCalm(g);
  }

  /** A circle of nodes, each of which kills a tracked variable. */
  predicate KillingCycle(g: Graph, c: seq<Node>)
    requires WellFormed(g)
  {
    IsCycle(g, c) && forall i | 0 <= i < |c| :: g.kills[c[i]] * g.tracked != {}
  }

  /** The loop ends if every cycle of the graph has a node that kills no tracked variable. */
  lemma HarmlessCyclesEnd(g: Graph)
    requires WellFormed(g) && forall c :: !KillingCycle(g, c)
    ensures Ends(g)
  {
    hide KillingCycle, RevivalCycle, Ends;
    EndsIffCalm(g);
    forall c
      ensures !RevivalCycle(g, c)
    {
      if RevivalCycle(g, c) {
        RevivalKills(g, c);
      }
    }
  }

  lemma RevivalKills(g: Graph, c: seq<Node>)
    requires WellFormed(g) && RevivalCycle(g, c)
    ensures KillingCycle(g, c)
  {
    hide Survives;
    RevivalIsCycle(g, c);
    forall i | 0 <= i < |c|
      ensures g.kills[c[i]] * g.tracked != {}
    {
      var k := if i > 0 then i - 1 else |c| - 2;
      assert Revives(g, c[k], c[k + 1]);
      var v :| Survives(g, c[k], v) && v in g.kills[c[k + 1]];
      InTracked(g, c[k], v);
      assert v in g.kills[c[i]] * g.tracked;
    }
  }

  // ----- the loop itself -----

  /** Runs the work list on a graph on which it ends. */
  method FindUnassigned(g: Graph, exit: Node) returns (unassigned: set<Var>)
    requires WellFormed(g) && exit < |g.exits| && Calm(g)
    ensures forall v :: v in unassigned <==> Survives(g, exit, v)
  {
    hide Calm, Missing, StackWeight, Inv, Survives, Step, Taken, Out;
    var s := Init(g);
    InitInv(g);
    while s.stack != []
      invariant Inv(g, s) && ValidState(g, s)
      decreases Missing(g, s, |g.exits|), StackWeight(g, s.stack)
    {
      RoundDecreases(g, s);
      StepInv(g, s);
      InvFacts(g, Step(g, s));
      s := Traverse(g, s);
    }
    unassigned := s.sets[exit];
    forall v
      ensures v in unassigned <==> Survives(g, exit, v)
    {
      FinalExact(g, s, exit, v);
    }
  }

  /** Takes the next node, kills its variables and passes the others on to its exits. */
  method Traverse(g: Graph, s: State) returns (t: State)
    requires WellFormed(g) && ValidState(g, s) && s.stack != []
    ensures t == Step(g, s)
  {
    var node := s.stack[|s.stack| - 1];
    var unassignedAtNode := s.sets[node] - g.kills[node];
    t := State(s.sets[node := unassignedAtNode], s.stack[..|s.stack| - 1]);
    ghost var start := t;
    var i := 0;
    var exits := g.exits[node];
    assert exits[0..] == exits;
    while i < |exits|
      invariant 0 <= i <= |exits| && ValidState(g, t)
      invariant Flow(start, unassignedAtNode, exits) == Flow(t, unassignedAtNode, exits[i..])
    {
      assert exits[i..][0] == exits[i] && exits[i..][1..] == exits[i + 1..];
      var exit := exits[i];
      var oldSize := |t.sets[exit]|;
      var grown := t.sets[exit] + unassignedAtNode;
      SubsetSize(t.sets[exit], grown);
      assert unassignedAtNode <= t.sets[exit] <==> grown == t.sets[exit];
      if |grown| > oldSize {
        t := State(t.sets[exit := grown], t.stack + [exit]);
      }
      i := i + 1;
    }
  }

  // ----- an arbitrary graph on which the loop does not end -----

  /** The entry leads to three nodes that form a circle, which can be entered at each of them; each
      kills one of three variables. No function has such a graph. */
  function Circle(): Graph {
    Graph([[1, 2, 3], [2], [3], [1]], [{}, {1}, {2}, {3}], 0, {1, 2, 3})
  }

  lemma CircleSurvives(x: Node, v: Var)
    requires 1 <= x <= 3 && 1 <= v <= 3 && x != v
    ensures WellFormed(Circle()) && Survives(Circle(), x, v)
  {
    assert Leaves(Circle(), [0, x], x, v);
  }

  lemma CircleNeverEnds()
    ensures WellFormed(Circle()) && !Ends(Circle())
  {
    hide Ends, Survives;
    CircleSurvives(1, 2);
    CircleSurvives(2, 3);
    CircleSurvives(3, 1);
    var c := [1, 2, 3, 1];
    assert Revives(Circle(), 1, 2) && Revives(Circle(), 2, 3) && Revives(Circle(), 3, 1);
    assert RevivalCycle(Circle(), c);
    EndsIffCalm(Circle());
  }
}
