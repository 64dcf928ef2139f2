/** The ways through a function, told without its graph: what can be executed one after the other, and
    which variables are assigned on the way. The flow that is built (libsolidity/analysis/ControlFlowBuilder.cpp)
    has exactly these ways, so the search reports the return variables that one of them leaves unassigned. */
module FunctionWays {
  import opened Wrappers
  import opened UnassignedReturns
  import opened FunctionFlows

  // ----- ways through a statement -----

  /** How the execution of a statement ends. */
  datatype End = Normal | Broke | Continued | Returned | Reverted

  /** What is assigned on the way, step by step. */
  type Way = seq<set<Var>>

  ghost predicate Untouched(w: Way, v: Var) {
    forall i | 0 <= i < |w| :: v !in w[i]
  }

  /** A way of the first set followed by one of the second. */
  ghost function Chain(a: iset<Way>, b: iset<Way>): iset<Way> {
    iset u: Way, w: Way | u in a && w in b :: u + w
  }

  ghost function Power(a: iset<Way>, n: nat): iset<Way> {
    if n == 0 then iset{[]} else Chain(a, Power(a, n - 1))
  }

  /** Any number of rounds. */
  ghost function Repeat(a: iset<Way>): iset<Way> {
    iset n: nat, w: Way | w in Power(a, n) :: w
  }

  ghost function OnlyIf(c: bool, a: iset<Way>): iset<Way> {
    if c then a else iset{}
  }

  /** The ways through a statement that end like this. A jump out of a loop's body ends the loop or its
      round; return and revert end everything around them. */
  ghost function Ways(s: Stmt, tracked: set<Var>, e: End): iset<Way>
    decreases s, 1
  {
    match s
    case Plain(k) => OnlyIf(e == Normal, iset{[k]})
    case Sequence(a, b) =>
      Chain(Ways(a, tracked, Normal), Ways(b, tracked, e)) + OnlyIf(e != Normal, Ways(a, tracked, e))
    case Block(a) => Ways(a, tracked, e)
    case Optional(a) => Ways(a, tracked, e) + OnlyIf(e == Normal, iset{[]})
    case Either(a, b) => Ways(a, tracked, e) + Ways(b, tracked, e)
    case While(c, a) =>
      var test := Ways(c, tracked, Normal);
      Chain(Repeat(Chain(test, Round(a, tracked))), Ways(c, tracked, e) + Chain(test, Leaving(a, tracked, e)))
    case DoWhile(a, c) =>
      var round := Round(a, tracked);
      Chain(Repeat(Chain(round, Ways(c, tracked, Normal))), Chain(round, Ways(c, tracked, e)) + Leaving(a, tracked, e))
    case ForLoop(c, step, a) =>
      var test := Ways(c, tracked, Normal);
      var round := Chain(test, Round(a, tracked));
      Chain(Repeat(Chain(round, Ways(step, tracked, Normal))),
            Ways(c, tracked, e) + Chain(test, Leaving(a, tracked, e)) + OnlyIf(e != Normal, Chain(round, Ways(step, tracked, e))))
    case Break => OnlyIf(e == Broke, iset{[]})
    case Continue => OnlyIf(e == Continued, iset{[]})
    case Revert => OnlyIf(e == Reverted, iset{[]})
    case Require => OnlyIf(e == Normal || e == Reverted, iset{[]})
    case Return(clears, _) => OnlyIf(e == Returned, iset{[if clears then tracked else {}]})
  }

  /** The ways through the body of a loop after which the loop goes on. */
  ghost function Round(a: Stmt, tracked: set<Var>): iset<Way>
    decreases a, 2
  {
    Ways(a, tracked, Normal) + Ways(a, tracked, Continued)
  }

  /** The ways through the body of a loop that end the loop like this. */
  ghost function Leaving(a: Stmt, tracked: set<Var>, e: End): iset<Way>
    decreases a, 2
  {
    OnlyIf(e == Normal, Ways(a, tracked, Broke)) + OnlyIf(e == Returned || e == Reverted, Ways(a, tracked, e))
  }

  /** Some way of the set leaves the variable unassigned. */
  ghost predicate Spares(a: iset<Way>, v: Var) {
    exists w :: w in a && Untouched(w, v)
  }

  ghost predicate Can(s: Stmt, tracked: set<Var>, v: Var, e: End) {
    Spares(Ways(s, tracked, e), v)
  }

  lemma SparesUnion(a: iset<Way>, b: iset<Way>, v: Var)
    ensures Spares(a + b, v) <==> Spares(a, v) || Spares(b, v)
  {
    hide Untouched;
    if w :| w in a && Untouched(w, v) {
      assert w in a + b;
    }
    if w :| w in b && Untouched(w, v) {
      assert w in a + b;
    }
  }

  lemma SparesChain(a: iset<Way>, b: iset<Way>, v: Var)
    ensures Spares(Chain(a, b), v) <==> Spares(a, v) && Spares(b, v)
  {
    if x :| x in Chain(a, b) && Untouched(x, v) {
      var u, w :| u in a && w in b && x == u + w;
      assert forall i | 0 <= i < |u| :: u[i] == x[i];
      assert forall i | 0 <= i < |w| :: w[i] == x[|u| + i];
      assert Untouched(u, v) && Untouched(w, v);
    }
    if Spares(a, v) && Spares(b, v) {
      var u :| u in a && Untouched(u, v);
      var w :| w in b && Untouched(w, v);
      assert u + w in Chain(a, b) && Untouched(u + w, v);
    }
  }

  lemma SparesRepeat(a: iset<Way>, v: Var)
    ensures Spares(Repeat(a), v)
  {
    var w: Way := [];
    assert w in Power(a, 0);
    assert w in Repeat(a) && Untouched(w, v);
  }

  lemma SparesIf(c: bool, a: iset<Way>, v: Var)
    ensures Spares(OnlyIf(c, a), v) <==> c && Spares(a, v)
  {
  }

  lemma SparesOne(k: set<Var>, v: Var)
    ensures Spares(iset{[k]}, v) <==> v !in k
    ensures Spares(iset{[]}, v)
  {
    var w: Way := [k];
    assert w in iset{w} && w[0] == k;
    assert Untouched(w, v) <==> v !in k;
    var none: Way := [];
    assert none in iset{none} && Untouched(none, v);
  }

  // -- by construct --

  ghost predicate CanRound(a: Stmt, tracked: set<Var>, v: Var) {
    Can(a, tracked, v, Normal) || Can(a, tracked, v, Continued)
  }

  ghost predicate CanLeave(a: Stmt, tracked: set<Var>, v: Var, e: End) {
    (e == Normal && Can(a, tracked, v, Broke)) || ((e == Returned || e == Reverted) && Can(a, tracked, v, e))
  }

  lemma RoundSpares(a: Stmt, tracked: set<Var>, v: Var, e: End)
    ensures Spares(Round(a, tracked), v) <==> CanRound(a, tracked, v)
    ensures Spares(Leaving(a, tracked, e), v) <==> CanLeave(a, tracked, v, e)
  {
    hide Spares, Ways, OnlyIf;
    SparesUnion(Ways(a, tracked, Normal), Ways(a, tracked, Continued), v);
    SparesUnion(OnlyIf(e == Normal, Ways(a, tracked, Broke)), OnlyIf(e == Returned || e == Reverted, Ways(a, tracked, e)), v);
    SparesIf(e == Normal, Ways(a, tracked, Broke), v);
    SparesIf(e == Returned || e == Reverted, Ways(a, tracked, e), v);
  }

  /** Statements without loops. */
  lemma CanSimple(s: Stmt, tracked: set<Var>, v: Var, e: End)
    ensures s.Plain? ==> (Can(s, tracked, v, e) <==> e == Normal && v !in s.kills)
    ensures s.Break? ==> (Can(s, tracked, v, e) <==> e == Broke)
    ensures s.Continue? ==> (Can(s, tracked, v, e) <==> e == Continued)
    ensures s.Revert? ==> (Can(s, tracked, v, e) <==> e == Reverted)
    ensures s.Require? ==> (Can(s, tracked, v, e) <==> e == Normal || e == Reverted)
    ensures s.Return? ==> (Can(s, tracked, v, e) <==> e == Returned && !(s.clears && v in tracked))
  {
    hide Spares;
    match s
    case Plain(k) => SparesOne(k, v); SparesIf(e == Normal, iset{[k]}, v);
    case Break => SparesOne({}, v); SparesIf(e == Broke, iset{[]}, v);
    case Continue => SparesOne({}, v); SparesIf(e == Continued, iset{[]}, v);
    case Revert => SparesOne({}, v); SparesIf(e == Reverted, iset{[]}, v);
    case Require => SparesOne({}, v); SparesIf(e == Normal || e == Reverted, iset{[]}, v);
    case Return(clears, _) =>
      var k := if clears then tracked else {};
      SparesOne(k, v); SparesIf(e == Returned, iset{[k]}, v);
    case _ =>
  }

  lemma CanBranch(s: Stmt, tracked: set<Var>, v: Var, e: End)
    ensures s.Sequence? ==> (Can(s, tracked, v, e) <==>
      (Can(s.first, tracked, v, Normal) && Can(s.second, tracked, v, e)) || (e != Normal && Can(s.first, tracked, v, e)))
    ensures s.Block? ==> (Can(s, tracked, v, e) <==> Can(s.body, tracked, v, e))
    ensures s.Optional? ==> (Can(s, tracked, v, e) <==> Can(s.body, tracked, v, e) || e == Normal)
    ensures s.Either? ==> (Can(s, tracked, v, e) <==> Can(s.left, tracked, v, e) || Can(s.right, tracked, v, e))
  {
    hide Spares;
    match s
    case Sequence(a, b) =>
      var x, y := Ways(a, tracked, Normal), Ways(b, tracked, e);
      SparesUnion(Chain(x, y), OnlyIf(e != Normal, Ways(a, tracked, e)), v);
      SparesChain(x, y, v);
      SparesIf(e != Normal, Ways(a, tracked, e), v);
    case Optional(a) =>
      SparesUnion(Ways(a, tracked, e), OnlyIf(e == Normal, iset{[]}), v);
      SparesIf(e == Normal, iset{[]}, v);
      SparesOne({}, v);
    case Either(a, b) => SparesUnion(Ways(a, tracked, e), Ways(b, tracked, e), v);
    case _ =>
  }

  lemma CanWhile(s: Stmt, tracked: set<Var>, v: Var, e: End)
    requires s.While?
    ensures Can(s, tracked, v, e) <==>
      Can(s.condition, tracked, v, e) || (Can(s.condition, tracked, v, Normal) && CanLeave(s.body, tracked, v, e))
  {
    hide Spares, Round, Leaving, Repeat, Chain;
    var test, leave := Ways(s.condition, tracked, Normal), Leaving(s.body, tracked, e);
    var rounds := Chain(test, Round(s.body, tracked));
    RoundSpares(s.body, tracked, v, e);
    SparesRepeat(rounds, v);
    SparesChain(test, leave, v);
    SparesUnion(Ways(s.condition, tracked, e), Chain(test, leave), v);
    SparesChain(Repeat(rounds), Ways(s.condition, tracked, e) + Chain(test, leave), v);
  }

  lemma CanDoWhile(s: Stmt, tracked: set<Var>, v: Var, e: End)
    requires s.DoWhile?
    ensures Can(s, tracked, v, e) <==>
      (CanRound(s.body, tracked, v) && Can(s.condition, tracked, v, e)) || CanLeave(s.body, tracked, v, e)
  {
    hide Spares, Round, Leaving, Repeat, Chain;
    var round, leave := Round(s.body, tracked), Leaving(s.body, tracked, e);
    var rounds := Chain(round, Ways(s.condition, tracked, Normal));
    RoundSpares(s.body, tracked, v, e);
    SparesRepeat(rounds, v);
    SparesChain(round, Ways(s.condition, tracked, e), v);
    SparesUnion(Chain(round, Ways(s.condition, tracked, e)), leave, v);
    SparesChain(Repeat(rounds), Chain(round, Ways(s.condition, tracked, e)) + leave, v);
  }

  lemma CanFor(s: Stmt, tracked: set<Var>, v: Var, e: End)
    requires s.ForLoop?
    ensures Can(s, tracked, v, e) <==>
      || Can(s.condition, tracked, v, e)
      || (Can(s.condition, tracked, v, Normal) && CanLeave(s.body, tracked, v, e))
      || (e != Normal && Can(s.condition, tracked, v, Normal) && CanRound(s.body, tracked, v) && Can(s.step, tracked, v, e))
  {
    hide Spares, Round, Leaving, Repeat, Chain, OnlyIf;
    var test, leave := Ways(s.condition, tracked, Normal), Leaving(s.body, tracked, e);
    var round, last := Chain(test, Round(s.body, tracked)), Ways(s.step, tracked, e);
    var rounds := Chain(round, Ways(s.step, tracked, Normal));
    RoundSpares(s.body, tracked, v, e);
    SparesRepeat(rounds, v);
    SparesChain(test, Round(s.body, tracked), v);
    SparesChain(test, leave, v);
    SparesChain(round, last, v);
    SparesIf(e != Normal, Chain(round, last), v);
    SparesUnion(Ways(s.condition, tracked, e), Chain(test, leave), v);
    SparesUnion(Ways(s.condition, tracked, e) + Chain(test, leave), OnlyIf(e != Normal, Chain(round, last)), v);
    SparesChain(Repeat(rounds), Ways(s.condition, tracked, e) + Chain(test, leave) + OnlyIf(e != Normal, Chain(round, last)), v);
  }

  // ----- walks in a flow -----

  ghost predicate Spared(f: Flow, x: Node, v: Var) {
    forall k | k in f.kills && k.node == x :: v !in k.vars
  }

  /** Step i of the walk is an edge from a node that spares the variable. */
  ghost predicate StepAt(f: Flow, v: Var, p: seq<Node>, i: nat)
    requires 0 < i < |p|
  {
    Edge(p[i - 1], p[i]) in f.edges && Spared(f, p[i - 1], v)
  }

  ghost predicate Walk(f: Flow, v: Var, p: seq<Node>) {
    forall i | 0 < i < |p| :: StepAt(f, v, p, i)
  }

  ghost predicate IsWalk(f: Flow, v: Var, p: seq<Node>, a: Node, x: Node) {
    |p| > 0 && p[0] == a && p[|p| - 1] == x && Walk(f, v, p)
  }

  /** The node x can be entered, coming from a, with the variable unassigned. */
  ghost predicate Comes(f: Flow, v: Var, a: Node, x: Node) {
    exists p :: IsWalk(f, v, p, a, x)
  }

  /** The same, and it is still unassigned behind x. */
  ghost predicate Reaches(f: Flow, v: Var, a: Node, x: Node) {
    Comes(f, v, a, x) && Spared(f, x, v)
  }

  lemma ComesSelf(f: Flow, v: Var, a: Node)
    ensures Comes(f, v, a, a)
  {
    assert IsWalk(f, v, [a], a, a);
  }

  lemma ComesStep(f: Flow, v: Var, a: Node, x: Node, y: Node)
    requires Reaches(f, v, a, x) && Edge(x, y) in f.edges
    ensures Comes(f, v, a, y)
  {
    hide Spared;
    var p :| IsWalk(f, v, p, a, x);
    var q := p + [y];
    forall i | 0 < i < |q|
      ensures StepAt(f, v, q, i)
    {
      assert i < |p| ==> StepAt(f, v, p, i);
    }
    assert IsWalk(f, v, q, a, y);
  }

  lemma WalkFront(f: Flow, v: Var, p: seq<Node>)
    requires Walk(f, v, p) && |p| > 0
    ensures Walk(f, v, p[..|p| - 1])
  {
    hide Spared;
    var q := p[..|p| - 1];
    forall i | 0 < i < |q|
      ensures StepAt(f, v, q, i)
    {
      assert StepAt(f, v, p, i);
    }
  }

  lemma ComesBack(f: Flow, v: Var, a: Node, x: Node) returns (y: Node)
    requires Comes(f, v, a, x) && x != a
    ensures Spared(f, a, v) && Reaches(f, v, a, y) && Edge(y, x) in f.edges
  {
    hide Spared;
    var p :| IsWalk(f, v, p, a, x);
    y := p[|p| - 2];
    assert StepAt(f, v, p, 1) && StepAt(f, v, p, |p| - 1);
    WalkFront(f, v, p);
    assert IsWalk(f, v, p[..|p| - 1], a, y);
  }

  /** A set that no edge leads out of. */
  ghost predicate ClosedUnder(f: Flow, v: Var, inside: iset<Node>) {
    forall e | e in f.edges && e.source in inside && Spared(f, e.source, v) :: e.target in inside
  }

  lemma {:induction false} StaysInside(f: Flow, v: Var, p: seq<Node>, inside: iset<Node>)
    requires |p| > 0 && Walk(f, v, p) && ClosedUnder(f, v, inside) && p[0] in inside
    ensures p[|p| - 1] in inside
  {
    hide Spared;
    if |p| > 1 {
      WalkFront(f, v, p);
      StaysInside(f, v, p[..|p| - 1], inside);
      assert StepAt(f, v, p, |p| - 1);
    }
  }

  lemma ComesInside(f: Flow, v: Var, a: Node, x: Node, inside: iset<Node>)
    requires Comes(f, v, a, x) && ClosedUnder(f, v, inside) && a in inside
    ensures x in inside
  {
    hide ClosedUnder, Walk;
    var p :| IsWalk(f, v, p, a, x);
    StaysInside(f, v, p, inside);
  }

  /** A walk in a part of the flow, continued from a walk to its start. */
  lemma {:induction false} WalkOn(f: Flow, v: Var, a: Node, part: Flow, p: seq<Node>)
    requires |p| > 0 && Walk(part, v, p) && Comes(f, v, a, p[0])
    requires forall e | e in part.edges :: e in f.edges && (Spared(part, e.source, v) ==> Spared(f, e.source, v))
    ensures Comes(f, v, a, p[|p| - 1])
  {
    hide Spared, Comes;
    if |p| > 1 {
      WalkFront(part, v, p);
      WalkOn(f, v, a, part, p[..|p| - 1]);
      var e := Edge(p[|p| - 1 - 1], p[|p| - 1]);
      assert StepAt(part, v, p, |p| - 1);
      ComesStep(f, v, a, e.source, e.target);
    }
  }

  // ----- the shape of a flow -----

  function OutsOf(t: Targets): set<Node> {
    {t.exit, t.revert} + (if t.breakJump.Some? then {t.breakJump.value} else {}) + (if t.continueJump.Some? then {t.continueJump.value} else {})
  }

  /** Edges and kills belong to the labels n to hi and to the starting node, nothing leaves the last node. */
  predicate Framed(f: Flow, at: Node, n: Node, hi: Node, outs: set<Node>) {
    && (forall e | e in f.edges :: (e.source == at || n <= e.source < hi) && (n <= e.target < hi || e.target in outs) && e.source != f.current)
    && (forall k | k in f.kills :: k.node == at || n <= k.node < hi)
    && (f.current == at || n <= f.current < hi)
  }

  lemma FramedFollow(f: Flow, g: Flow, at: Node, n: Node, m: Node, hi: Node, outs: set<Node>)
    requires at < n <= m <= hi && Framed(f, at, n, m, outs) && Framed(g, f.current, m, hi, outs)
    ensures Framed(Follow(f, g), at, n, hi, outs)
  {
  }

  /** A flow behind its own label, with edges that lead there or to the next label. */
  lemma FramedBlock(f: Flow, x: seq<Edge>, y: seq<Edge>, at: Node, n: Node, end: Node, outs: set<Node>)
    requires at < n < end && Framed(f, n, n + 1, end, outs)
    requires forall e | e in x + y :: (e.source == at || e.source == f.current) && n <= e.target <= end
    ensures Framed(Flow(x + f.edges + y, f.kills, end, f.loops), at, n, end + 1, outs)
  {
  }

  lemma FramedThen(f: Flow, g: Flow, n: Node, m: Node, hi: Node, outs: set<Node>)
    requires n < m < hi && Framed(f, n, n + 1, m, outs) && Framed(g, m, m + 1, hi, outs)
    ensures Framed(Then(f, g, m), n, n + 1, hi, outs)
  {
  }

  lemma FramedEither(f: Flow, g: Flow, at: Node, n: Node, m: Node, end: Node, outs: set<Node>)
    requires at < n < m < end && Framed(f, n, n + 1, m, outs) && Framed(g, m, m + 1, end, outs)
    ensures Framed(EitherFlow(f, g, at, n, m, end), at, n, end + 1, outs)
  {
  }

  lemma FramedLoop(inner: Flow, at: Node, n: Node, leaving: Node, end: Node, outs: set<Node>)
    requires at < n < end && Framed(inner, n, n + 1, end, outs) && n <= leaving < end
    ensures Framed(LoopFlow(inner, at, n, leaving, end), at, n, end + 1, outs - {end})
  {
  }

  lemma FramedMore(f: Flow, at: Node, n: Node, hi: Node, few: set<Node>, outs: set<Node>)
    requires Framed(f, at, n, hi, few) && forall o | o in few :: o in outs || n <= o < hi
    ensures Framed(f, at, n, hi, outs)
  {
  }

  lemma {:induction false} BuildFramed(s: Stmt, at: Node, n: Node, t: Targets)
    requires at < n
    ensures Framed(Build(s, at, n, t), at, n, n + Size(s), OutsOf(t))
    decreases s, 1
  {
    hide Framed, OutsOf, Build, Size;
    match s {
      case Sequence(_, _) => SequenceFramed(s, at, n, t);
      case Block(_) => BlockFramed(s, at, n, t);
      case Optional(_) => OptionalFramed(s, at, n, t);
      case Either(_, _) => EitherFramed(s, at, n, t);
      case While(_, _) => WhileFramed(s, at, n, t);
      case DoWhile(_, _) => DoWhileFramed(s, at, n, t);
      case ForLoop(_, _, _) => ForFramed(s, at, n, t);
      case Return(_, _) => ReturnFramed(s, at, n, t);
      case _ => JumpFramed(s, at, n, t);
    }
  }

  lemma {:induction false} SequenceFramed(s: Stmt, at: Node, n: Node, t: Targets)
    requires s.Sequence? && at < n
    ensures Framed(Build(s, at, n, t), at, n, n + Size(s), OutsOf(t))
    decreases s, 0
  {
    hide Framed, OutsOf, Build, Size, Follow;
    SequenceIs(s, at, n, t);
    var f, m := Build(s.first, at, n, t), n + Size(s.first);
    BuildFramed(s.first, at, n, t);
    FramedCurrent(f, at, n, m, OutsOf(t));
    BuildFramed(s.second, f.current, m, t);
    FramedFollow(f, Build(s.second, f.current, m, t), at, n, m, m + Size(s.second), OutsOf(t));
  }

  lemma {:induction false} BlockFramed(s: Stmt, at: Node, n: Node, t: Targets)
    requires s.Block? && at < n
    ensures Framed(Build(s, at, n, t), at, n, n + Size(s), OutsOf(t))
    decreases s, 0
  {
    hide Framed, OutsOf, Build, Size;
    BlockIs(s, at, n, t);
    var f, end := Build(s.body, n, n + 1, t), n + 1 + Size(s.body);
    BuildFramed(s.body, n, n + 1, t);
    FramedCurrent(f, n, n + 1, end, OutsOf(t));
    FramedBlock(f, [Edge(at, n)], [Edge(f.current, end)], at, n, end, OutsOf(t));
  }

  lemma {:induction false} OptionalFramed(s: Stmt, at: Node, n: Node, t: Targets)
    requires s.Optional? && at < n
    ensures Framed(Build(s, at, n, t), at, n, n + Size(s), OutsOf(t))
    decreases s, 0
  {
    hide Framed, OutsOf, Build, Size;
    OptionalIs(s, at, n, t);
    var f, end := Build(s.body, n, n + 1, t), n + 1 + Size(s.body);
    BuildFramed(s.body, n, n + 1, t);
    FramedCurrent(f, n, n + 1, end, OutsOf(t));
    FramedBlock(f, [Edge(at, n)], [Edge(at, end), Edge(f.current, end)], at, n, end, OutsOf(t));
  }

  lemma {:induction false} EitherFramed(s: Stmt, at: Node, n: Node, t: Targets)
    requires s.Either? && at < n
    ensures Framed(Build(s, at, n, t), at, n, n + Size(s), OutsOf(t))
    decreases s, 0
  {
    hide Framed, OutsOf, Build, Size, EitherFlow;
    EitherIs(s, at, n, t);
    var m := n + 1 + Size(s.left);
    BuildFramed(s.left, n, n + 1, t);
    BuildFramed(s.right, m, m + 1, t);
    FramedEither(Build(s.left, n, n + 1, t), Build(s.right, m, m + 1, t), at, n, m, m + 1 + Size(s.right), OutsOf(t));
  }

  lemma FramedCurrent(f: Flow, at: Node, n: Node, hi: Node, outs: set<Node>)
    requires Framed(f, at, n, hi, outs)
    ensures f.current == at || n <= f.current < hi
  {
  }

  lemma JumpFramed(s: Stmt, at: Node, n: Node, t: Targets)
    requires at < n && (s.Plain? || s.Break? || s.Continue? || s.Revert? || s.Require?)
    ensures Framed(Build(s, at, n, t), at, n, n + Size(s), OutsOf(t))
  {
  }

  lemma {:induction false} ReturnFramed(s: Stmt, at: Node, n: Node, t: Targets)
    requires s.Return? && at < n
    ensures Framed(Build(s, at, n, t), at, n, n + Size(s), OutsOf(t))
    decreases s, 0
  {
    hide Build, Size;
    ReturnIs(s, at, n, t);
    BuildFramed(s.value, n, n + 1, t);
  }

  /** Inside a loop there are two more targets. */
  lemma LoopOuts(t: Targets, end: Node, next: Node)
    ensures OutsOf(t.(breakJump := Some(end), continueJump := Some(next))) <= OutsOf(t) + {end, next}
  {
  }

  lemma {:induction false} WhileFramed(s: Stmt, at: Node, n: Node, t: Targets)
    requires s.While? && at < n
    ensures Framed(Build(s, at, n, t), at, n, n + Size(s), OutsOf(t))
    decreases s, 0
  {
    hide Framed, Build, Size, OutsOf;
    WhileIs(s, at, n, t);
    var m := n + 1 + Size(s.condition);
    var end := m + 1 + Size(s.body);
    var t' := t.(breakJump := Some(end), continueJump := Some(n));
    var f, g := Build(s.condition, n, n + 1, t), Build(s.body, m, m + 1, t');
    var outs := OutsOf(t) + {end, n};
    LoopOuts(t, end, n);
    BuildFramed(s.condition, n, n + 1, t);
    BuildFramed(s.body, m, m + 1, t');
    FramedMore(f, n, n + 1, m, OutsOf(t), outs);
    FramedMore(g, m, m + 1, end, OutsOf(t'), outs);
    FramedThen(f, g, n, m, end, outs);
    FramedCurrent(f, n, n + 1, m, outs);
    FramedLoop(Then(f, g, m), at, n, f.current, end, outs);
    FramedMore(Build(s, at, n, t), at, n, end + 1, outs - {end}, OutsOf(t));
  }

  lemma {:induction false} DoWhileFramed(s: Stmt, at: Node, n: Node, t: Targets)
    requires s.DoWhile? && at < n
    ensures Framed(Build(s, at, n, t), at, n, n + Size(s), OutsOf(t))
    decreases s, 0
  {
    hide Framed, Build, Size, OutsOf;
    DoWhileIs(s, at, n, t);
    var m := n + 1 + Size(s.body);
    var end := m + 1 + Size(s.condition);
    var t' := t.(breakJump := Some(end), continueJump := Some(m));
    var f, g := Build(s.body, n, n + 1, t'), Build(s.condition, m, m + 1, t);
    var outs := OutsOf(t) + {end, m};
    LoopOuts(t, end, m);
    BuildFramed(s.body, n, n + 1, t');
    BuildFramed(s.condition, m, m + 1, t);
    FramedMore(f, n, n + 1, m, OutsOf(t'), outs);
    FramedMore(g, m, m + 1, end, OutsOf(t), outs);
    FramedThen(f, g, n, m, end, outs);
    FramedCurrent(g, m, m + 1, end, outs);
    FramedLoop(Then(f, g, m), at, n, g.current, end, outs);
    FramedMore(Build(s, at, n, t), at, n, end + 1, outs - {end}, OutsOf(t));
  }

  lemma {:induction false} ForFramed(s: Stmt, at: Node, n: Node, t: Targets)
    requires s.ForLoop? && at < n
    ensures Framed(Build(s, at, n, t), at, n, n + Size(s), OutsOf(t))
    decreases s, 0
  {
    hide Framed, Build, Size, OutsOf, Then, LoopFlow;
    ForIs(s, at, n, t);
    var m := n + 1 + Size(s.condition);
    var next := m + 1 + Size(s.body);
    var end := next + 1 + Size(s.step);
    var t' := t.(breakJump := Some(end), continueJump := Some(next));
    var f, g, h := Build(s.condition, n, n + 1, t), Build(s.body, m, m + 1, t'), Build(s.step, next, next + 1, t);
    var outs := OutsOf(t) + {end, next};
    LoopOuts(t, end, next);
    BuildFramed(s.condition, n, n + 1, t);
    BuildFramed(s.body, m, m + 1, t');
    BuildFramed(s.step, next, next + 1, t);
    FramedMore(f, n, n + 1, m, OutsOf(t), outs);
    FramedMore(g, m, m + 1, next, OutsOf(t'), outs);
    FramedMore(h, next, next + 1, end, OutsOf(t), outs);
    FramedThen(f, g, n, m, next, outs);
    FramedThen(Then(f, g, m), h, n, next, end, outs);
    FramedCurrent(f, n, n + 1, m, outs);
    FramedLoop(Then(Then(f, g, m), h, next), at, n, f.current, end, outs);
    FramedMore(Build(s, at, n, t), at, n, end + 1, outs - {end}, OutsOf(t));
  }

  // ----- the flow has the ways of the statement -----

  /** Where a statement that does not end normally leads to. */
  function JumpNode(t: Targets, e: End): Option<Node> {
    match e
    case Normal => None
    case Broke => t.breakJump
    case Continued => t.continueJump
    case Returned => Some(t.exit)
    case Reverted => Some(t.revert)
  }

  /** The targets of jumps are different and lie outside. */
  predicate Apart(t: Targets, at: Node, n: Node, hi: Node) {
    && (forall e | JumpNode(t, e).Some? :: JumpNode(t, e).value != at && !(n <= JumpNode(t, e).value < hi))
    && forall e, d | JumpNode(t, e).Some? && JumpNode(t, e) == JumpNode(t, d) :: e == d
  }

  /** Each end of the flow is reached with the variable unassigned if and only if some way ends there. */
  ghost predicate Faithful(s: Stmt, f: Flow, at: Node, t: Targets, v: Var) {
    && (Reaches(f, v, at, f.current) <==> Can(s, t.tracked, v, Normal))
    && forall e | JumpNode(t, e).Some? :: Reaches(f, v, at, JumpNode(t, e).value) <==> Can(s, t.tracked, v, e)
  }

  /** A statement inside another one, with its own label. */
  datatype Part = Part(s: Stmt, start: Node, t: Targets)

  function FlowOf(p: Part): Flow {
    Build(p.s, p.start, p.start + 1, p.t)
  }

  predicate Owns(p: Part, x: Node) {
    p.start <= x < p.start + 1 + Size(p.s)
  }

  ghost predicate Ready(p: Part, v: Var) {
    Framed(FlowOf(p), p.start, p.start + 1, p.start + 1 + Size(p.s), OutsOf(p.t)) && Faithful(p.s, FlowOf(p), p.start, p.t, v)
  }

  ghost predicate PartIn(f: Flow, p: Part) {
    && (forall e | e in FlowOf(p).edges :: e in f.edges)
    && forall k :: k in FlowOf(p).kills <==> k in f.kills && Owns(p, k.node)
  }

  /** A flow made of parts, and of edges x between them. */
  ghost predicate Assembled(f: Flow, at: Node, x: seq<Edge>, parts: seq<Part>) {
    && (forall i | 0 <= i < |parts| :: PartIn(f, parts[i]) && !Owns(parts[i], at))
    && (forall i, j, y | 0 <= i < |parts| && 0 <= j < |parts| && Owns(parts[i], y) && Owns(parts[j], y) :: i == j)
    && (forall e | e in f.edges :: e in x || FromPart(parts, e))
    && (forall e | e in x :: e in f.edges && (e.source == at || FromEnd(parts, e)))
    && forall k | k in f.kills :: Owned(parts, k.node)
  }

  predicate FromPart(parts: seq<Part>, e: Edge) {
    exists i :: 0 <= i < |parts| && e in FlowOf(parts[i]).edges
  }

  predicate FromEnd(parts: seq<Part>, e: Edge) {
    exists i :: 0 <= i < |parts| && e.source == FlowOf(parts[i]).current
  }

  predicate Owned(parts: seq<Part>, x: Node) {
    exists i :: 0 <= i < |parts| && Owns(parts[i], x)
  }

  ghost predicate JumpsThere(s: Stmt, t: Targets, v: Var, y: Node) {
    exists e :: JumpNode(t, e) == Some(y) && Can(s, t.tracked, v, e)
  }

  /** If the part is entered, all that follows it is among the live nodes. */
  ghost predicate Settles(p: Part, x: seq<Edge>, live: iset<Node>, v: Var) {
    p.start in live ==>
      && (forall y | JumpsThere(p.s, p.t, v, y) :: y in live)
      && (Can(p.s, p.t.tracked, v, Normal) ==> forall e | e in x && e.source == FlowOf(p).current :: e.target in live)
  }

  /** A part is only left at its end or by jumps. */
  lemma LeftByJump(p: Part, v: Var, y: Node)
    requires Ready(p, v) && Comes(FlowOf(p), v, p.start, y) && !Owns(p, y)
    ensures JumpsThere(p.s, p.t, v, y)
  {
    hide Build, Size, Comes, Can;
    var f := FlowOf(p);
    var z := ComesBack(f, v, p.start, y);
    assert Edge(z, y).target in OutsOf(p.t);
    var e :| JumpNode(p.t, e) == Some(y);
    assert Spared(f, y, v);
    assert Reaches(f, v, p.start, JumpNode(p.t, e).value);
  }

  ghost predicate Visits(p: Part, live: iset<Node>, v: Var, y: Node) {
    p.start in live && Comes(FlowOf(p), v, p.start, y)
  }

  ghost predicate VisitsSome(parts: seq<Part>, live: iset<Node>, v: Var, y: Node) {
    exists i :: 0 <= i < |parts| && Visits(parts[i], live, v, y)
  }

  ghost predicate AllSettle(parts: seq<Part>, x: seq<Edge>, live: iset<Node>, v: Var) {
    && (forall i | 0 <= i < |parts| :: Ready(parts[i], v) && Settles(parts[i], x, live, v))
    && forall i, y | 0 <= i < |parts| && y in live && Owns(parts[i], y) :: y == parts[i].start
  }

  lemma VisitsOwned(f: Flow, at: Node, x: seq<Edge>, parts: seq<Part>, live: iset<Node>, v: Var, i: nat, y: Node)
    requires Assembled(f, at, x, parts) && AllSettle(parts, x, live, v) && i < |parts| && Owns(parts[i], y)
    requires y in live || VisitsSome(parts, live, v, y)
    ensures Visits(parts[i], live, v, y)
  {
    hide FlowOf, Owns, Comes, PartIn, Ready;
    ComesSelf(FlowOf(parts[i]), v, parts[i].start);
    if y !in live && !Visits(parts[i], live, v, y) {
      var j :| 0 <= j < |parts| && Visits(parts[j], live, v, y);
      LeftByJump(parts[j], v, y);
    }
  }

  /** Only live nodes and nodes inside the parts are entered. */
  lemma LiveEdge(f: Flow, at: Node, x: seq<Edge>, parts: seq<Part>, live: iset<Node>, v: Var, e: Edge)
    requires Assembled(f, at, x, parts) && AllSettle(parts, x, live, v)
    requires forall d | d in x && d.source == at :: d.target in live
    requires e in f.edges && Spared(f, e.source, v) && (e.source in live || VisitsSome(parts, live, v, e.source))
    ensures e.target in live || VisitsSome(parts, live, v, e.target)
  {
    hide FlowOf, Owns, Comes, Can, JumpsThere;
    if e in x {
      if e.source != at {
        var i :| 0 <= i < |parts| && e.source == FlowOf(parts[i]).current;
        CurrentOwned(parts[i], v);
        VisitsOwned(f, at, x, parts, live, v, i, e.source);
        assert PartIn(f, parts[i]);
        assert Reaches(FlowOf(parts[i]), v, parts[i].start, e.source);
      }
    } else {
      var i :| 0 <= i < |parts| && e in FlowOf(parts[i]).edges;
      SourceOwned(parts[i], v, e);
      VisitsOwned(f, at, x, parts, live, v, i, e.source);
      assert PartIn(f, parts[i]);
      ComesStep(FlowOf(parts[i]), v, parts[i].start, e.source, e.target);
      assert Visits(parts[i], live, v, e.target);
    }
  }

  lemma CurrentOwned(p: Part, v: Var)
    requires Ready(p, v)
    ensures Owns(p, FlowOf(p).current)
  {
    hide Build, Size, Faithful;
  }

  lemma SourceOwned(p: Part, v: Var, e: Edge)
    requires Ready(p, v) && e in FlowOf(p).edges
    ensures Owns(p, e.source)
  {
    hide Build, Size, Faithful;
  }

  lemma OnlyLive(f: Flow, at: Node, x: seq<Edge>, parts: seq<Part>, live: iset<Node>, v: Var, y: Node)
    requires Assembled(f, at, x, parts) && AllSettle(parts, x, live, v)
    requires at in live && forall d | d in x && d.source == at :: d.target in live
    requires Comes(f, v, at, y) && !Owned(parts, y)
    ensures y in live
  {
    hide Assembled, Comes, FlowOf, Spared, Ready;
    var inside := iset z: Node | z in live || VisitsSome(parts, live, v, z);
    forall e | e in f.edges && e.source in inside && Spared(f, e.source, v)
      ensures e.target in inside
    {
      LiveEdge(f, at, x, parts, live, v, e);
    }
    ComesInside(f, v, at, y, inside);
    if y !in live {
      var i :| 0 <= i < |parts| && Visits(parts[i], live, v, y);
      LeftByJump(parts[i], v, y);
    }
  }

  /** A way through a part continues a walk to its start. */
  lemma Pass(f: Flow, at: Node, p: Part, v: Var, e: End)
    requires PartIn(f, p) && Ready(p, v) && Comes(f, v, at, p.start) && Can(p.s, p.t.tracked, v, e)
    ensures e == Normal ==> Reaches(f, v, at, FlowOf(p).current)
    ensures JumpNode(p.t, e).Some? ==> Comes(f, v, at, JumpNode(p.t, e).value)
  {
    hide FlowOf, Can, Size;
    var g := FlowOf(p);
    if e == Normal {
      CurrentOwned(p, v);
      PassTo(f, at, p, v, g.current);
    } else if JumpNode(p.t, e).Some? {
      assert Reaches(g, v, p.start, JumpNode(p.t, e).value);
      PassTo(f, at, p, v, JumpNode(p.t, e).value);
    }
  }

  lemma PassTo(f: Flow, at: Node, p: Part, v: Var, y: Node)
    requires PartIn(f, p) && Ready(p, v) && Comes(f, v, at, p.start) && Comes(FlowOf(p), v, p.start, y)
    ensures Comes(f, v, at, y)
  {
    hide FlowOf, Faithful, Walk;
    var g := FlowOf(p);
    forall e | e in g.edges
      ensures e in f.edges && (Spared(g, e.source, v) ==> Spared(f, e.source, v))
    {
      SourceOwned(p, v, e);
    }
    var q :| IsWalk(g, v, q, p.start, y);
    WalkOn(f, v, at, g, q);
  }

  /** The nodes where something can happen behind the statement, and the starts of its parts that can. */
  ghost function Live(s: Stmt, t: Targets, v: Var, at: Node, end: Node, starts: iset<Node>): iset<Node> {
    iset y: Node | y == at || y in starts || (y == end && Can(s, t.tracked, v, Normal)) || JumpsThere(s, t, v, y)
  }

  ghost predicate AllCome(s: Stmt, f: Flow, at: Node, t: Targets, v: Var) {
    && (Can(s, t.tracked, v, Normal) ==> Comes(f, v, at, f.current))
    && forall e | JumpNode(t, e).Some? && Can(s, t.tracked, v, e) :: Comes(f, v, at, JumpNode(t, e).value)
  }

  /** The parts behave, and whatever can happen is reached: the whole is faithful. */
  lemma Whole(s: Stmt, f: Flow, at: Node, t: Targets, n: Node, hi: Node, v: Var, x: seq<Edge>, parts: seq<Part>, starts: iset<Node>)
    requires at < n && Apart(t, at, n, hi) && n <= f.current < hi && f.current !in starts
    requires Assembled(f, at, x, parts) && AllSettle(parts, x, Live(s, t, v, at, f.current, starts), v)
    requires forall d | d in x && d.source == at :: d.target in Live(s, t, v, at, f.current, starts)
    requires !Owned(parts, f.current) && forall y: Node | y in starts || Owned(parts, y) :: n <= y < hi
    requires AllCome(s, f, at, t, v)
    ensures Faithful(s, f, at, t, v)
  {
    hide Can, Comes, AllSettle, Owned, PartIn, Owns;
    var live := Live(s, t, v, at, f.current, starts);
    forall y: Node | (y == f.current || exists e :: JumpNode(t, e) == Some(y))
      ensures Spared(f, y, v) && (Comes(f, v, at, y) ==> y in live)
    {
      assert y != at && !Owned(parts, y);
      if Comes(f, v, at, y) {
        OnlyLive(f, at, x, parts, live, v, y);
      }
    }
    forall e | JumpNode(t, e).Some?
      ensures Reaches(f, v, at, JumpNode(t, e).value) <==> Can(s, t.tracked, v, e)
    {
      assert JumpNode(t, e) == Some(JumpNode(t, e).value);
    }
  }

  /** The same, from facts about the edges alone. */
  lemma Together(s: Stmt, f: Flow, at: Node, t: Targets, n: Node, hi: Node, v: Var, x: seq<Edge>, parts: seq<Part>, starts: iset<Node>)
    requires at < n && Apart(t, at, n, hi) && n <= f.current < hi && Assembled(f, at, x, parts) && AllCome(s, f, at, t, v)
    requires forall i | 0 <= i < |parts| :: Ready(parts[i], v) && Settles(parts[i], x, Live(s, t, v, at, f.current, starts), v)
    requires forall i | 0 <= i < |parts| :: n <= parts[i].start && parts[i].start + 1 + Size(parts[i].s) <= f.current
    requires forall y | y in starts :: IsStart(parts, y)
    requires forall d | d in x && d.source == at :: d.target in starts || (d.target == f.current && Can(s, t.tracked, v, Normal))
    ensures Faithful(s, f, at, t, v)
  {
    hide Can, Comes, Assembled, PartIn, Ready, Size, Settles, AllCome;
    var live := Live(s, t, v, at, f.current, starts);
    forall i, y | 0 <= i < |parts| && y in live && Owns(parts[i], y)
      ensures y == parts[i].start
    {
      LiveStarts(s, t, v, at, n, hi, f.current, starts, y);
      var j :| 0 <= j < |parts| && parts[j].start == y;
      StartOwned(f, at, x, parts, i, j);
    }
    assert forall y | y in starts :: n <= y < f.current;
    Whole(s, f, at, t, n, hi, v, x, parts, starts);
  }

  predicate IsStart(parts: seq<Part>, y: Node) {
    exists i :: 0 <= i < |parts| && parts[i].start == y
  }

  lemma StartOwned(f: Flow, at: Node, x: seq<Edge>, parts: seq<Part>, i: nat, j: nat)
    requires Assembled(f, at, x, parts) && i < |parts| && j < |parts| && Owns(parts[i], parts[j].start)
    ensures i == j
  {
    hide PartIn, FromPart, FromEnd, Size;
    assert Owns(parts[j], parts[j].start);
  }

  lemma LiveStarts(s: Stmt, t: Targets, v: Var, at: Node, n: Node, hi: Node, end: Node, starts: iset<Node>, y: Node)
    requires at < n && Apart(t, at, n, hi) && n <= y < hi && y in Live(s, t, v, at, end, starts)
    ensures y in starts || y == end
  {
    hide Can;
  }

  // -- by construct --

  lemma {:induction false} BuildFaithful(s: Stmt, at: Node, n: Node, t: Targets, v: Var)
    requires at < n && Apart(t, at, n, n + Size(s))
    ensures Faithful(s, Build(s, at, n, t), at, t, v)
    decreases s, 2
  {
    hide Faithful, Build, Size, Apart;
    match s {
      case Sequence(_, _) => SequenceFaithful(s, at, n, t, v);
      case Block(_) => BlockFaithful(s, at, n, t, v);
      case Optional(_) => OptionalFaithful(s, at, n, t, v);
      case Either(_, _) => EitherFaithful(s, at, n, t, v);
      case While(_, _) => WhileFaithful(s, at, n, t, v);
      case DoWhile(_, _) => DoWhileFaithful(s, at, n, t, v);
      case ForLoop(_, _, _) => ForFaithful(s, at, n, t, v);
      case Return(_, _) => ReturnFaithful(s, at, n, t, v);
      case Plain(_) => PlainFaithful(s, at, n, t, v);
      case _ => JumpFaithful(s, at, n, t, v);
    }
  }

  /** A part of a statement is ready. */
  lemma {:induction false} PartReady(whole: Stmt, p: Part, v: Var)
    requires p.s < whole && Apart(p.t, p.start, p.start + 1, p.start + 1 + Size(p.s))
    ensures Ready(p, v)
    decreases whole, 0
  {
    hide Faithful, Build, Size, Apart, Framed, OutsOf;
    BuildFramed(p.s, p.start, p.start + 1, p.t);
    BuildFaithful(p.s, p.start, p.start + 1, p.t, v);
  }

  lemma PlainFaithful(s: Stmt, at: Node, n: Node, t: Targets, v: Var)
    requires s.Plain? && at < n && Apart(t, at, n, n + Size(s))
    ensures Faithful(s, Build(s, at, n, t), at, t, v)
  {
    hide Can, Comes;
    var f := Build(s, at, n, t);
    CanSimple(s, t.tracked, v, Normal);
    ComesSelf(f, v, at);
    assert Spared(f, at, v) <==> v !in s.kills by {
      assert f.kills[0].node == at;
    }
    forall e | JumpNode(t, e).Some?
      ensures !Reaches(f, v, at, JumpNode(t, e).value) && !Can(s, t.tracked, v, e)
    {
      CanSimple(s, t.tracked, v, e);
      if Comes(f, v, at, JumpNode(t, e).value) {
        var y := ComesBack(f, v, at, JumpNode(t, e).value);
      }
    }
  }

  lemma JumpFaithful(s: Stmt, at: Node, n: Node, t: Targets, v: Var)
    requires (s.Break? || s.Continue? || s.Revert? || s.Require?) && at < n && Apart(t, at, n, n + Size(s))
    ensures Faithful(s, Build(s, at, n, t), at, t, v)
  {
    hide Can, Comes;
    var f := Build(s, at, n, t);
    ComesSelf(f, v, at);
    assert Spared(f, at, v);
    CanSimple(s, t.tracked, v, Normal);
    forall e | Can(s, t.tracked, v, e)
      ensures JumpNode(t, e).Some? ==> Comes(f, v, at, JumpNode(t, e).value)
      ensures e == Normal ==> Comes(f, v, at, n)
    {
      CanSimple(s, t.tracked, v, e);
      if JumpNode(t, e).Some? {
        assert f.edges[0] == Edge(at, JumpNode(t, e).value);
        ComesStep(f, v, at, at, JumpNode(t, e).value);
      } else if e == Normal {
        assert f.edges[1] == Edge(at, n);
        ComesStep(f, v, at, at, n);
      }
    }
    forall d | d in f.edges && d.source == at
      ensures d.target in Live(s, t, v, at, n, iset{})
    {
      CanSimple(s, t.tracked, v, Broke);
      CanSimple(s, t.tracked, v, Continued);
      CanSimple(s, t.tracked, v, Reverted);
    }
    Whole(s, f, at, t, n, n + 1, v, f.edges, [], iset{});
  }

  lemma {:induction false} ReturnFaithful(s: Stmt, at: Node, n: Node, t: Targets, v: Var)
    requires s.Return? && at < n && Apart(t, at, n, n + Size(s))
    ensures Faithful(s, Build(s, at, n, t), at, t, v)
  {
    hide Can, Comes, Build, Size;
    ReturnIs(s, at, n, t);
    var f, g := Build(s, at, n, t), Build(s.value, n, n + 1, t);
    BuildFramed(s.value, n, n + 1, t);
    ComesSelf(f, v, at);
    assert Spared(f, at, v) <==> !(s.clears && v in t.tracked) by {
      assert f.kills[0].node == at;
    }
    var inside := iset{at, t.exit};
    assert JumpNode(t, Returned) == Some(t.exit);
    assert ClosedUnder(f, v, inside);
    CanSimple(s, t.tracked, v, Normal);
    if Comes(f, v, at, f.current) {
      ComesInside(f, v, at, f.current, inside);
    }
    forall e | JumpNode(t, e).Some?
      ensures Reaches(f, v, at, JumpNode(t, e).value) <==> Can(s, t.tracked, v, e)
    {
      var y := JumpNode(t, e).value;
      CanSimple(s, t.tracked, v, e);
      assert Spared(f, y, v);
      if Comes(f, v, at, y) {
        ComesInside(f, v, at, y, inside);
        var z := ComesBack(f, v, at, y);
      }
      if Can(s, t.tracked, v, e) {
        assert f.edges[0] == Edge(at, t.exit);
        ComesStep(f, v, at, at, t.exit);
      }
    }
  }

  lemma ApartWithin(t: Targets, at: Node, n: Node, hi: Node, at': Node, n': Node, hi': Node)
    requires Apart(t, at, n, hi) && (at' == at || n <= at' < hi) && n <= n' <= hi' <= hi
    ensures Apart(t, at', n', hi')
  {
  }

  /** The targets inside a loop. */
  lemma ApartLoop(t: Targets, at: Node, n: Node, hi: Node, end: Node, next: Node, m: Node, hi': Node)
    requires Apart(t, at, n, hi) && n <= end < hi && n <= next < hi && end != next
    requires n <= m < hi' <= hi && !(m <= end < hi') && !(m <= next < hi')
    ensures Apart(t.(breakJump := Some(end), continueJump := Some(next)), m, m + 1, hi')
  {
    var t' := t.(breakJump := Some(end), continueJump := Some(next));
    assert JumpNode(t, Returned) == Some(t.exit) && JumpNode(t, Reverted) == Some(t.revert);
    forall e, d | JumpNode(t', e).Some? && JumpNode(t', e) == JumpNode(t', d)
      ensures e == d
    {
    }
  }

  // -- sequences --

  lemma {:induction false} SequenceFaithful(s: Stmt, at: Node, n: Node, t: Targets, v: Var)
    requires s.Sequence? && at < n && Apart(t, at, n, n + Size(s))
    ensures Faithful(s, Build(s, at, n, t), at, t, v)
    decreases s, 0
  {
    hide Can, Build, Size, Apart, Framed, Faithful, OutsOf;
    SequenceIs(s, at, n, t);
    var f, m, hi := Build(s.first, at, n, t), n + Size(s.first), n + Size(s);
    var g := Build(s.second, f.current, m, t);
    BuildFramed(s.first, at, n, t);
    FramedCurrent(f, at, n, m, OutsOf(t));
    BuildFramed(s.second, f.current, m, t);
    ApartWithin(t, at, n, hi, at, n, m);
    ApartWithin(t, at, n, hi, f.current, m, hi);
    BuildFaithful(s.first, at, n, t, v);
    BuildFaithful(s.second, f.current, m, t, v);
    FollowFaithful(s, f, g, at, n, m, hi, t, v);
  }

  ghost predicate InSequence(s: Stmt, f: Flow, g: Flow, at: Node, n: Node, m: Node, hi: Node, t: Targets, v: Var) {
    && s.Sequence? && at < n <= m <= hi && Apart(t, at, n, hi)
    && Framed(f, at, n, m, OutsOf(t)) && Framed(g, f.current, m, hi, OutsOf(t))
    && Faithful(s.first, f, at, t, v) && Faithful(s.second, g, f.current, t, v)
  }

  /** Where a flow can lead. */
  lemma ComesFramed(f: Flow, v: Var, at: Node, n: Node, hi: Node, t: Targets, x: Node)
    requires Framed(f, at, n, hi, OutsOf(t)) && Comes(f, v, at, x)
    ensures x == at || n <= x < hi || exists e :: JumpNode(t, e) == Some(x)
  {
    hide Comes;
    if x != at {
      var y := ComesBack(f, v, at, x);
      if x in OutsOf(t) {
        OutsAreJumps(t, x);
      }
    }
  }

  lemma OutsAreJumps(t: Targets, x: Node)
    requires x in OutsOf(t)
    ensures exists e :: JumpNode(t, e) == Some(x)
  {
    assert JumpNode(t, Returned) == Some(t.exit) && JumpNode(t, Reverted) == Some(t.revert);
    assert JumpNode(t, Broke) == t.breakJump && JumpNode(t, Continued) == t.continueJump;
  }

  lemma FollowSound(s: Stmt, f: Flow, g: Flow, at: Node, n: Node, m: Node, hi: Node, t: Targets, v: Var, y: Node)
    requires InSequence(s, f, g, at, n, m, hi, t, v) && Comes(Follow(f, g), v, at, y)
    ensures Comes(f, v, at, y) || (Can(s.first, t.tracked, v, Normal) && Comes(g, v, f.current, y))
  {
    hide Can, Comes, OutsOf;
    var whole := Follow(f, g);
    var inside := iset z: Node | Comes(f, v, at, z) || (Can(s.first, t.tracked, v, Normal) && Comes(g, v, f.current, z));
    ComesSelf(f, v, at);
    forall e | e in whole.edges && e.source in inside && Spared(whole, e.source, v)
      ensures e.target in inside
    {
      FollowEdge(s, f, g, at, n, m, hi, t, v, e);
    }
    ComesInside(whole, v, at, y, inside);
  }

  lemma FollowEdge(s: Stmt, f: Flow, g: Flow, at: Node, n: Node, m: Node, hi: Node, t: Targets, v: Var, e: Edge)
    requires InSequence(s, f, g, at, n, m, hi, t, v) && e in Follow(f, g).edges && Spared(Follow(f, g), e.source, v)
    requires Comes(f, v, at, e.source) || (Can(s.first, t.tracked, v, Normal) && Comes(g, v, f.current, e.source))
    ensures Comes(f, v, at, e.target) || (Can(s.first, t.tracked, v, Normal) && Comes(g, v, f.current, e.target))
  {
    hide Can, Comes, OutsOf;
    assert Spared(f, e.source, v) && Spared(g, e.source, v);
    ComesSelf(g, v, f.current);
    if Comes(f, v, at, e.source) {
      ComesFramed(f, v, at, n, m, t, e.source);
      if e in f.edges {
        ComesStep(f, v, at, e.source, e.target);
      } else {
        assert e.source == f.current;
        ComesStep(g, v, f.current, e.source, e.target);
      }
    } else {
      ComesFramed(g, v, f.current, m, hi, t, e.source);
      assert e in g.edges;
      ComesStep(g, v, f.current, e.source, e.target);
    }
  }

  lemma FollowComes(s: Stmt, f: Flow, g: Flow, at: Node, n: Node, m: Node, hi: Node, t: Targets, v: Var, y: Node)
    requires InSequence(s, f, g, at, n, m, hi, t, v)
    requires Comes(f, v, at, y) || (Reaches(f, v, at, f.current) && Comes(g, v, f.current, y))
    ensures Comes(Follow(f, g), v, at, y)
  {
    hide Can, OutsOf, Faithful, Apart, Walk;
    var whole := Follow(f, g);
    assert forall e | e in f.edges && Spared(f, e.source, v) :: Spared(whole, e.source, v);
    if Comes(f, v, at, y) {
      var p :| IsWalk(f, v, p, at, y);
      ComesSelf(whole, v, at);
      WalkOn(whole, v, at, f, p);
    } else {
      var p :| IsWalk(f, v, p, at, f.current);
      ComesSelf(whole, v, at);
      WalkOn(whole, v, at, f, p);
      assert forall e | e in g.edges && Spared(g, e.source, v) :: Spared(whole, e.source, v);
      var q :| IsWalk(g, v, q, f.current, y);
      WalkOn(whole, v, at, g, q);
    }
  }

  lemma FollowFaithful(s: Stmt, f: Flow, g: Flow, at: Node, n: Node, m: Node, hi: Node, t: Targets, v: Var)
    requires InSequence(s, f, g, at, n, m, hi, t, v)
    ensures Faithful(s, Follow(f, g), at, t, v)
  {
    hide Can, Comes, OutsOf;
    var whole := Follow(f, g);
    CanBranch(s, t.tracked, v, Normal);
    FollowEnd(s, f, g, at, n, m, hi, t, v, whole.current);
    if Reaches(whole, v, at, whole.current) && Comes(f, v, at, whole.current) {
      ComesFramed(f, v, at, n, m, t, whole.current);
      ComesSelf(g, v, f.current);
    }
    forall e | JumpNode(t, e).Some?
      ensures Reaches(whole, v, at, JumpNode(t, e).value) <==> Can(s, t.tracked, v, e)
    {
      CanBranch(s, t.tracked, v, e);
      var y := JumpNode(t, e).value;
      assert Spared(whole, y, v) && Spared(f, y, v) && Spared(g, y, v);
      FollowEnd(s, f, g, at, n, m, hi, t, v, y);
    }
  }

  lemma FollowEnd(s: Stmt, f: Flow, g: Flow, at: Node, n: Node, m: Node, hi: Node, t: Targets, v: Var, y: Node)
    requires InSequence(s, f, g, at, n, m, hi, t, v)
    ensures Comes(Follow(f, g), v, at, y) <==> Comes(f, v, at, y) || (Can(s.first, t.tracked, v, Normal) && Comes(g, v, f.current, y))
    ensures Spared(Follow(f, g), y, v) <==> Spared(f, y, v) && Spared(g, y, v)
  {
    hide Can, OutsOf, Framed, Apart, Walk;
    if Comes(Follow(f, g), v, at, y) {
      FollowSound(s, f, g, at, n, m, hi, t, v, y);
    }
    if Comes(f, v, at, y) || (Can(s.first, t.tracked, v, Normal) && Comes(g, v, f.current, y)) {
      FollowComes(s, f, g, at, n, m, hi, t, v, y);
    }
  }

  // -- statements made of parts --

  lemma AssembledOne(f: Flow, at: Node, x: seq<Edge>, p: Part, v: Var)
    requires Ready(p, v) && at < p.start
    requires forall e :: e in f.edges <==> e in x || e in FlowOf(p).edges
    requires forall e | e in x :: e.source == at || e.source == FlowOf(p).current
    requires f.kills == FlowOf(p).kills
    ensures Assembled(f, at, x, [p])
  {
    hide Build, Size, Faithful;
    forall e
      ensures FromPart([p], e) <==> e in FlowOf(p).edges
      ensures FromEnd([p], e) <==> e.source == FlowOf(p).current
    {
      assert [p][0] == p;
    }
    forall y: Node
      ensures Owned([p], y) <==> Owns(p, y)
    {
      assert [p][0] == p;
    }
  }

  predicate OwnsKills(p: Part) {
    forall k | k in FlowOf(p).kills :: Owns(p, k.node)
  }

  lemma AssembledMore(f: Flow, at: Node, x: seq<Edge>, parts: seq<Part>, p: Part, g: Flow, y: seq<Edge>)
    requires Assembled(f, at, x, parts) && OwnsKills(p) && at < p.start
    requires forall i | 0 <= i < |parts| :: parts[i].start + 1 + Size(parts[i].s) <= p.start && OwnsKills(parts[i])
    requires forall k | k in f.kills :: k.node < p.start
    requires forall e :: e in g.edges <==> e in y || e in f.edges || e in FlowOf(p).edges
    requires forall e | e in x :: e in y
    requires forall e | e in y :: e in g.edges && (e in x || e.source == at || e.source == FlowOf(p).current || FromEnd(parts, e))
    requires forall k :: k in g.kills <==> k in f.kills || k in FlowOf(p).kills
    ensures Assembled(g, at, y, parts + [p])
  {
    hide FlowOf, Size, FromEnd, FromPart, Owned;
    MoreParts(parts, p);
  }

  lemma MoreParts(parts: seq<Part>, p: Part)
    ensures forall e :: FromPart(parts + [p], e) <==> FromPart(parts, e) || e in FlowOf(p).edges
    ensures forall e :: FromEnd(parts + [p], e) <==> FromEnd(parts, e) || e.source == FlowOf(p).current
    ensures forall z: Node :: Owned(parts + [p], z) <==> Owned(parts, z) || Owns(p, z)
  {
    hide FlowOf, Owns;
    var all := parts + [p];
    assert all[|parts|] == p && forall i | 0 <= i < |parts| :: all[i] == parts[i];
    forall e
      ensures FromPart(all, e) <==> FromPart(parts, e) || e in FlowOf(p).edges
      ensures FromEnd(all, e) <==> FromEnd(parts, e) || e.source == FlowOf(p).current
    {
      if i :| 0 <= i < |parts| && e in FlowOf(parts[i]).edges {
        assert e in FlowOf(all[i]).edges;
      }
      if i :| 0 <= i < |parts| && e.source == FlowOf(parts[i]).current {
        assert e.source == FlowOf(all[i]).current;
      }
    }
    forall z: Node
      ensures Owned(all, z) <==> Owned(parts, z) || Owns(p, z)
    {
      if i :| 0 <= i < |parts| && Owns(parts[i], z) {
        assert Owns(all[i], z);
      }
    }
  }

  /** Entering a label from a node that spares the variable. */
  lemma Enter(f: Flow, v: Var, at: Node, x: Node, y: Node)
    requires Reaches(f, v, at, x) && Edge(x, y) in f.edges
    ensures Comes(f, v, at, y)
  {
    hide Comes, Spared;
    ComesStep(f, v, at, x, y);
  }

  lemma StartReached(f: Flow, v: Var, at: Node, x: seq<Edge>, parts: seq<Part>)
    requires Assembled(f, at, x, parts)
    ensures Reaches(f, v, at, at)
  {
    hide Comes, PartIn, Owns;
    ComesSelf(f, v, at);
  }

  lemma {:induction false} BlockFaithful(s: Stmt, at: Node, n: Node, t: Targets, v: Var)
    requires s.Block? && at < n && Apart(t, at, n, n + Size(s))
    ensures Faithful(s, Build(s, at, n, t), at, t, v)
    decreases s, 1
  {
    hide Build, Size, Apart, Faithful, Can, Comes, Framed, Spared;
    BlockIs(s, at, n, t);
    var p, end := Part(s.body, n, t), n + 1 + Size(s.body);
    ApartWithin(t, at, n, end + 1, n, n + 1, end);
    PartReady(s, p, v);
    BlockParts(s, at, n, t, v);
  }

  lemma BlockParts(s: Stmt, at: Node, n: Node, t: Targets, v: Var)
    requires s.Block? && at < n && Apart(t, at, n, n + Size(s)) && Ready(Part(s.body, n, t), v)
    ensures Faithful(s, Build(s, at, n, t), at, t, v)
  {
    hide Build, Size, Can, Comes, Framed, Faithful;
    BlockIs(s, at, n, t);
    var p, f, end := Part(s.body, n, t), Build(s, at, n, t), n + 1 + Size(s.body);
    var x := [Edge(at, n), Edge(FlowOf(p).current, end)];
    AssembledOne(f, at, x, p, v);
    StartReached(f, v, at, x, [p]);
    assert x[0] == Edge(at, n) && x[1] == Edge(FlowOf(p).current, end);
    Enter(f, v, at, at, n);
    var live := Live(s, t, v, at, end, iset{n});
    forall e | Can(s.body, t.tracked, v, e)
      ensures Can(s, t.tracked, v, e)
    {
      CanBranch(s, t.tracked, v, e);
    }
    forall e | Can(s, t.tracked, v, e)
      ensures e == Normal ==> Comes(f, v, at, end)
      ensures JumpNode(t, e).Some? ==> Comes(f, v, at, JumpNode(t, e).value)
    {
      CanBranch(s, t.tracked, v, e);
      Pass(f, at, p, v, e);
      if e == Normal {
        Enter(f, v, at, FlowOf(p).current, end);
      }
    }
    CurrentOwned(p, v);
    assert Settles(p, x, live, v);
    assert [p][0] == p;
    Together(s, f, at, t, n, end + 1, v, x, [p], iset{n});
  }

  lemma {:induction false} OptionalFaithful(s: Stmt, at: Node, n: Node, t: Targets, v: Var)
    requires s.Optional? && at < n && Apart(t, at, n, n + Size(s))
    ensures Faithful(s, Build(s, at, n, t), at, t, v)
    decreases s, 1
  {
    hide Build, Size, Apart, Faithful, Can, Comes, Framed, Spared;
    OptionalIs(s, at, n, t);
    var p, end := Part(s.body, n, t), n + 1 + Size(s.body);
    ApartWithin(t, at, n, end + 1, n, n + 1, end);
    PartReady(s, p, v);
    OptionalParts(s, at, n, t, v);
  }

  lemma OptionalParts(s: Stmt, at: Node, n: Node, t: Targets, v: Var)
    requires s.Optional? && at < n && Apart(t, at, n, n + Size(s)) && Ready(Part(s.body, n, t), v)
    ensures Faithful(s, Build(s, at, n, t), at, t, v)
  {
    hide Build, Size, Can, Comes, Framed, Faithful;
    OptionalIs(s, at, n, t);
    var p, f, end := Part(s.body, n, t), Build(s, at, n, t), n + 1 + Size(s.body);
    var x := [Edge(at, n), Edge(at, end), Edge(FlowOf(p).current, end)];
    AssembledOne(f, at, x, p, v);
    StartReached(f, v, at, x, [p]);
    assert x[0] == Edge(at, n) && x[1] == Edge(at, end);
    Enter(f, v, at, at, n);
    Enter(f, v, at, at, end);
    var live := Live(s, t, v, at, end, iset{n});
    CanBranch(s, t.tracked, v, Normal);
    forall e | Can(s.body, t.tracked, v, e)
      ensures Can(s, t.tracked, v, e)
    {
      CanBranch(s, t.tracked, v, e);
    }
    forall e | JumpNode(t, e).Some? && Can(s, t.tracked, v, e)
      ensures Comes(f, v, at, JumpNode(t, e).value)
    {
      CanBranch(s, t.tracked, v, e);
      Pass(f, at, p, v, e);
    }
    CurrentOwned(p, v);
    assert Settles(p, x, live, v);
    assert [p][0] == p;
    Together(s, f, at, t, n, end + 1, v, x, [p], iset{n});
  }

  lemma {:induction false} EitherFaithful(s: Stmt, at: Node, n: Node, t: Targets, v: Var)
    requires s.Either? && at < n && Apart(t, at, n, n + Size(s))
    ensures Faithful(s, Build(s, at, n, t), at, t, v)
    decreases s, 1
  {
    hide Build, Size, Apart, Faithful, Can, Comes, Framed, Spared, BuildEither;
    EitherIs(s, at, n, t);
    var m := n + 1 + Size(s.left);
    var end := m + 1 + Size(s.right);
    ApartWithin(t, at, n, end + 1, n, n + 1, m);
    ApartWithin(t, at, n, end + 1, m, m + 1, end);
    PartReady(s, Part(s.left, n, t), v);
    PartReady(s, Part(s.right, m, t), v);
    EitherParts(s, at, n, t, v);
  }

  /** Two parts, one behind the other. */
  lemma AssembledTwo(f: Flow, at: Node, x: seq<Edge>, p: Part, q: Part, v: Var)
    requires Ready(p, v) && Ready(q, v) && at < p.start && p.start + 1 + Size(p.s) <= q.start
    requires forall e :: e in f.edges <==> e in x || e in FlowOf(p).edges || e in FlowOf(q).edges
    requires forall e | e in x :: e.source == at || e.source == FlowOf(p).current || e.source == FlowOf(q).current
    requires f.kills == FlowOf(p).kills + FlowOf(q).kills
    ensures Assembled(f, at, x, [p, q]) && PartIn(f, p) && PartIn(f, q) && Reaches(f, v, at, at)
  {
    hide Build, Size, Faithful, FlowOf, Assembled, PartIn, Reaches;
    var few := Flow(FlowOf(p).edges, FlowOf(p).kills, 0, []);
    AssembledOne(few, at, [], p, v);
    assert [p] + [q] == [p, q];
    MoreParts([], p);
    assert [] + [p] == [p];
    KillsOwned(p, v);
    KillsOwned(q, v);
    AssembledMore(few, at, [], [p], q, f, x);
    PartInAt(f, at, x, [p, q], 0);
    PartInAt(f, at, x, [p, q], 1);
    StartReached(f, v, at, x, [p, q]);
  }

  lemma PartInAt(f: Flow, at: Node, x: seq<Edge>, parts: seq<Part>, i: nat)
    requires Assembled(f, at, x, parts) && i < |parts|
    ensures PartIn(f, parts[i])
  {
    hide PartIn, Owned, FromPart, FromEnd;
  }

  lemma KillsOwned(p: Part, v: Var)
    requires Ready(p, v)
    ensures OwnsKills(p)
  {
    hide Build, Size, Faithful;
  }

  lemma EitherComes(s: Stmt, f: Flow, at: Node, p: Part, q: Part, t: Targets, v: Var)
    requires s.Either? && p.s == s.left && p.t == t && q.s == s.right && q.t == t
    requires Ready(p, v) && Ready(q, v) && PartIn(f, p) && PartIn(f, q) && Reaches(f, v, at, at)
    requires Edge(at, p.start) in f.edges && Edge(at, q.start) in f.edges
    requires Edge(FlowOf(p).current, f.current) in f.edges && Edge(FlowOf(q).current, f.current) in f.edges
    ensures AllCome(s, f, at, t, v)
  {
    hide FlowOf, Ready, PartIn, Reaches, Comes, Can;
    Enter(f, v, at, at, p.start);
    Enter(f, v, at, at, q.start);
    forall e | Can(s, t.tracked, v, e)
      ensures e == Normal ==> Comes(f, v, at, f.current)
      ensures JumpNode(t, e).Some? ==> Comes(f, v, at, JumpNode(t, e).value)
    {
      CanBranch(s, t.tracked, v, e);
      var r := if Can(s.left, t.tracked, v, e) then p else q;
      Pass(f, at, r, v, e);
      if e == Normal {
        Enter(f, v, at, FlowOf(r).current, f.current);
      }
    }
  }

  lemma EitherParts(s: Stmt, at: Node, n: Node, t: Targets, v: Var)
    requires s.Either? && at < n && Apart(t, at, n, n + Size(s)) && Ready(Part(s.left, n, t), v)
    requires Ready(Part(s.right, n + 1 + Size(s.left), t), v)
    ensures Faithful(s, Build(s, at, n, t), at, t, v)
  {
    hide Build, Size, Can, Comes, Framed, Faithful;
    EitherIs(s, at, n, t);
    var m := n + 1 + Size(s.left);
    var end := m + 1 + Size(s.right);
    var p, q, f := Part(s.left, n, t), Part(s.right, m, t), Build(s, at, n, t);
    var x := [Edge(at, n), Edge(at, m), Edge(FlowOf(p).current, end), Edge(FlowOf(q).current, end)];
    AssembledTwo(f, at, x, p, q, v);
    assert x[0] == Edge(at, n) && x[1] == Edge(at, m) && x[2] == Edge(FlowOf(p).current, end) && x[3] == Edge(FlowOf(q).current, end);
    var live := Live(s, t, v, at, end, iset{n, m});
    forall e | Can(s.left, t.tracked, v, e) || Can(s.right, t.tracked, v, e)
      ensures Can(s, t.tracked, v, e)
    {
      CanBranch(s, t.tracked, v, e);
    }
    EitherComes(s, f, at, p, q, t, v);
    CurrentOwned(p, v);
    CurrentOwned(q, v);
    assert Settles(p, x, live, v) && Settles(q, x, live, v);
    assert [p, q][0] == p && [p, q][1] == q;
    Together(s, f, at, t, n, end + 1, v, x, [p, q], iset{n, m});
  }

  lemma {:induction false} WhileFaithful(s: Stmt, at: Node, n: Node, t: Targets, v: Var)
    requires s.While? && at < n && Apart(t, at, n, n + Size(s))
    ensures Faithful(s, Build(s, at, n, t), at, t, v)
    decreases s, 1
  {
    hide Build, Size, Apart, Faithful, Can, Comes, Framed, Spared, BuildWhile;
    WhileIs(s, at, n, t);
    var m := n + 1 + Size(s.condition);
    var end := m + 1 + Size(s.body);
    var t' := t.(breakJump := Some(end), continueJump := Some(n));
    ApartWithin(t, at, n, end + 1, n, n + 1, m);
    ApartLoop(t, at, n, end + 1, end, n, m, end);
    PartReady(s, Part(s.condition, n, t), v);
    PartReady(s, Part(s.body, m, t'), v);
    WhileParts(s, at, n, t, v);
  }

  lemma WhileComes(s: Stmt, f: Flow, at: Node, p: Part, q: Part, t: Targets, v: Var)
    requires s.While? && p.s == s.condition && p.t == t && q.s == s.body
    requires q.t == t.(breakJump := Some(f.current), continueJump := Some(p.start))
    requires Ready(p, v) && Ready(q, v) && PartIn(f, p) && PartIn(f, q) && Reaches(f, v, at, at)
    requires Edge(at, p.start) in f.edges && Edge(FlowOf(p).current, q.start) in f.edges && Edge(FlowOf(p).current, f.current) in f.edges
    ensures AllCome(s, f, at, t, v)
  {
    hide FlowOf, Ready, PartIn, Reaches, Comes, Can;
    Enter(f, v, at, at, p.start);
    if Can(s.condition, t.tracked, v, Normal) {
      Pass(f, at, p, v, Normal);
      Enter(f, v, at, FlowOf(p).current, q.start);
      Enter(f, v, at, FlowOf(p).current, f.current);
    }
    forall e | Can(s, t.tracked, v, e)
      ensures e == Normal ==> Comes(f, v, at, f.current)
      ensures JumpNode(t, e).Some? ==> Comes(f, v, at, JumpNode(t, e).value)
    {
      CanWhile(s, t.tracked, v, e);
      if Can(s.condition, t.tracked, v, e) {
        Pass(f, at, p, v, e);
      } else if e == Normal {
        Pass(f, at, q, v, Broke);
      } else {
        Pass(f, at, q, v, e);
      }
    }
  }

  /** What follows the parts of a loop. */
  lemma WhileSettles(s: Stmt, p: Part, q: Part, t: Targets, v: Var, at: Node, end: Node, x: seq<Edge>, live: iset<Node>)
    requires s.While? && p.s == s.condition && p.t == t && q.s == s.body
    requires q.t == t.(breakJump := Some(end), continueJump := Some(p.start))
    requires live == Live(s, t, v, at, end, iset{p.start} + if Can(p.s, t.tracked, v, Normal) then iset{q.start} else iset{})
    requires q.start in live ==> Can(p.s, t.tracked, v, Normal)
    requires forall e | e in x && e.source == FlowOf(p).current :: e.target == q.start || e.target == end
    requires forall e | e in x && e.source == FlowOf(q).current :: e.target == p.start
    ensures Settles(p, x, live, v) && Settles(q, x, live, v)
  {
    hide FlowOf, Can;
    forall e | Can(p.s, t.tracked, v, e)
      ensures Can(s, t.tracked, v, e)
    {
      CanWhile(s, t.tracked, v, e);
    }
    forall y | JumpsThere(p.s, p.t, v, y)
      ensures y in live
    {
      assert JumpsThere(s, t, v, y);
    }
    forall y | q.start in live && JumpsThere(q.s, q.t, v, y)
      ensures y in live
    {
      var e :| JumpNode(q.t, e) == Some(y) && Can(q.s, t.tracked, v, e);
      CanWhile(s, t.tracked, v, e);
      CanWhile(s, t.tracked, v, Normal);
      if e == Returned || e == Reverted {
        assert JumpNode(t, e) == Some(y);
      }
    }
  }

  /** The edges and kills of a loop with two parts, which is left behind one of them. */
  lemma TwoPartEdges(f: Flow, g: Flow, at: Node, n: Node, m: Node, leaving: Node, end: Node)
    ensures var whole := LoopFlow(Then(f, g, m), at, n, leaving, end);
            && whole.current == end && whole.kills == f.kills + g.kills
            && forall e :: e in whole.edges <==>
                 e in [Edge(at, n), Edge(f.current, m), Edge(g.current, n), Edge(leaving, end)] || e in f.edges || e in g.edges
  {
  }

  lemma WhileParts(s: Stmt, at: Node, n: Node, t: Targets, v: Var)
    requires s.While? && at < n && Apart(t, at, n, n + Size(s)) && Ready(Part(s.condition, n, t), v)
    requires var m := n + 1 + Size(s.condition);
             Ready(Part(s.body, m, t.(breakJump := Some(m + 1 + Size(s.body)), continueJump := Some(n))), v)
    ensures Faithful(s, Build(s, at, n, t), at, t, v)
  {
    hide LoopFlow, Then, Build, Size, Can, Comes, Framed, Faithful, Settles, AllCome, Apart, JumpsThere, Assembled, Ready, PartIn, Reaches, Live;
    WhileIs(s, at, n, t);
    var m := n + 1 + Size(s.condition);
    var end := m + 1 + Size(s.body);
    var p, q, f := Part(s.condition, n, t), Part(s.body, m, t.(breakJump := Some(end), continueJump := Some(n))), Build(s, at, n, t);
    var x := [Edge(at, n), Edge(FlowOf(p).current, m), Edge(FlowOf(q).current, n), Edge(FlowOf(p).current, end)];
    TwoPartEdges(FlowOf(p), FlowOf(q), at, n, m, FlowOf(p).current, end);
    AssembledTwo(f, at, x, p, q, v);
    assert x[0] == Edge(at, n) && x[1] == Edge(FlowOf(p).current, m) && x[3] == Edge(FlowOf(p).current, end);
    CurrentOwned(p, v);
    CurrentOwned(q, v);
    var starts := iset{n} + if Can(p.s, t.tracked, v, Normal) then iset{m} else iset{};
    if m in Live(s, t, v, at, end, starts) {
      LiveStarts(s, t, v, at, n, end + 1, end, starts, m);
    }
    WhileSettles(s, p, q, t, v, at, end, x, Live(s, t, v, at, end, starts));
    WhileComes(s, f, at, p, q, t, v);
    assert [p, q][0] == p && [p, q][1] == q;
    Together(s, f, at, t, n, end + 1, v, x, [p, q], starts);
  }

  lemma {:induction false} DoWhileFaithful(s: Stmt, at: Node, n: Node, t: Targets, v: Var)
    requires s.DoWhile? && at < n && Apart(t, at, n, n + Size(s))
    ensures Faithful(s, Build(s, at, n, t), at, t, v)
    decreases s, 1
  {
    hide Build, Size, Apart, Faithful, Can, Comes, Framed, Spared, BuildDoWhile;
    DoWhileIs(s, at, n, t);
    var m := n + 1 + Size(s.body);
    var end := m + 1 + Size(s.condition);
    var t' := t.(breakJump := Some(end), continueJump := Some(m));
    ApartLoop(t, at, n, end + 1, end, m, n, m);
    ApartWithin(t, at, n, end + 1, m, m + 1, end);
    PartReady(s, Part(s.body, n, t'), v);
    PartReady(s, Part(s.condition, m, t), v);
    DoWhileParts(s, at, n, t, v);
  }

  lemma DoWhileComes(s: Stmt, f: Flow, at: Node, p: Part, q: Part, t: Targets, v: Var)
    requires s.DoWhile? && p.s == s.body && q.s == s.condition && q.t == t
    requires p.t == t.(breakJump := Some(f.current), continueJump := Some(q.start))
    requires Ready(p, v) && Ready(q, v) && PartIn(f, p) && PartIn(f, q) && Reaches(f, v, at, at)
    requires Edge(at, p.start) in f.edges && Edge(FlowOf(p).current, q.start) in f.edges && Edge(FlowOf(q).current, f.current) in f.edges
    ensures AllCome(s, f, at, t, v)
  {
    hide FlowOf, Ready, PartIn, Reaches, Comes, Can;
    Enter(f, v, at, at, p.start);
    forall e | Can(p.s, t.tracked, v, e)
      ensures e == Normal || e == Continued ==> Comes(f, v, at, q.start)
      ensures e == Broke ==> Comes(f, v, at, f.current)
    {
      Pass(f, at, p, v, e);
      if e == Normal {
        Enter(f, v, at, FlowOf(p).current, q.start);
      }
    }
    forall e | Can(s, t.tracked, v, e)
      ensures e == Normal ==> Comes(f, v, at, f.current)
      ensures JumpNode(t, e).Some? ==> Comes(f, v, at, JumpNode(t, e).value)
    {
      CanDoWhile(s, t.tracked, v, e);
      if CanRound(p.s, t.tracked, v) && Can(q.s, t.tracked, v, e) {
        Pass(f, at, q, v, e);
        if e == Normal {
          Enter(f, v, at, FlowOf(q).current, f.current);
        }
      } else if e != Normal {
        Pass(f, at, p, v, e);
      }
    }
  }

  lemma DoWhileSettles(s: Stmt, p: Part, q: Part, t: Targets, v: Var, at: Node, end: Node, x: seq<Edge>, live: iset<Node>)
    requires s.DoWhile? && p.s == s.body && q.s == s.condition && q.t == t
    requires p.t == t.(breakJump := Some(end), continueJump := Some(q.start))
    requires live == Live(s, t, v, at, end, iset{p.start} + if CanRound(p.s, t.tracked, v) then iset{q.start} else iset{})
    requires q.start in live ==> CanRound(p.s, t.tracked, v)
    requires forall e | e in x && e.source == FlowOf(p).current :: e.target == q.start
    requires forall e | e in x && e.source == FlowOf(q).current :: e.target == p.start || e.target == end
    ensures Settles(p, x, live, v) && Settles(q, x, live, v)
  {
    hide FlowOf, Can;
    forall e | q.start in live && Can(q.s, t.tracked, v, e)
      ensures Can(s, t.tracked, v, e)
    {
      CanDoWhile(s, t.tracked, v, e);
    }
    forall y | q.start in live && JumpsThere(q.s, q.t, v, y)
      ensures y in live
    {
      assert JumpsThere(s, t, v, y);
    }
    forall y | JumpsThere(p.s, p.t, v, y)
      ensures y in live
    {
      var e :| JumpNode(p.t, e) == Some(y) && Can(p.s, t.tracked, v, e);
      CanDoWhile(s, t.tracked, v, e);
      CanDoWhile(s, t.tracked, v, Normal);
      if e == Returned || e == Reverted {
        assert JumpNode(t, e) == Some(y);
      }
    }
  }

  lemma DoWhileParts(s: Stmt, at: Node, n: Node, t: Targets, v: Var)
    requires s.DoWhile? && at < n && Apart(t, at, n, n + Size(s))
    requires var m := n + 1 + Size(s.body);
             && Ready(Part(s.body, n, t.(breakJump := Some(m + 1 + Size(s.condition)), continueJump := Some(m))), v)
             && Ready(Part(s.condition, m, t), v)
    ensures Faithful(s, Build(s, at, n, t), at, t, v)
  {
    hide LoopFlow, Then, Build, Size, Can, Comes, Framed, Faithful, Settles, AllCome, Apart, JumpsThere, Assembled, Ready, PartIn, Reaches, Live, CanRound;
    DoWhileIs(s, at, n, t);
    var m := n + 1 + Size(s.body);
    var end := m + 1 + Size(s.condition);
    var p, q, f := Part(s.body, n, t.(breakJump := Some(end), continueJump := Some(m))), Part(s.condition, m, t), Build(s, at, n, t);
    var x := [Edge(at, n), Edge(FlowOf(p).current, m), Edge(FlowOf(q).current, n), Edge(FlowOf(q).current, end)];
    TwoPartEdges(FlowOf(p), FlowOf(q), at, n, m, FlowOf(q).current, end);
    AssembledTwo(f, at, x, p, q, v);
    assert x[0] == Edge(at, n) && x[1] == Edge(FlowOf(p).current, m) && x[3] == Edge(FlowOf(q).current, end);
    CurrentOwned(p, v);
    CurrentOwned(q, v);
    var starts := iset{n} + if CanRound(p.s, t.tracked, v) then iset{m} else iset{};
    if m in Live(s, t, v, at, end, starts) {
      LiveStarts(s, t, v, at, n, end + 1, end, starts, m);
    }
    DoWhileSettles(s, p, q, t, v, at, end, x, Live(s, t, v, at, end, starts));
    DoWhileComes(s, f, at, p, q, t, v);
    assert [p, q][0] == p && [p, q][1] == q;
    Together(s, f, at, t, n, end + 1, v, x, [p, q], starts);
  }

  lemma {:induction false} ForFaithful(s: Stmt, at: Node, n: Node, t: Targets, v: Var)
    requires s.ForLoop? && at < n && Apart(t, at, n, n + Size(s))
    ensures Faithful(s, Build(s, at, n, t), at, t, v)
    decreases s, 1
  {
    hide Build, Size, Apart, Faithful, Can, Comes, Framed, Spared, BuildForLoop;
    ForIs(s, at, n, t);
    var m := n + 1 + Size(s.condition);
    var next := m + 1 + Size(s.body);
    var end := next + 1 + Size(s.step);
    var t' := t.(breakJump := Some(end), continueJump := Some(next));
    ApartWithin(t, at, n, end + 1, n, n + 1, m);
    ApartLoop(t, at, n, end + 1, end, next, m, next);
    ApartWithin(t, at, n, end + 1, next, next + 1, end);
    PartReady(s, Part(s.condition, n, t), v);
    PartReady(s, Part(s.body, m, t'), v);
    PartReady(s, Part(s.step, next, t), v);
    ForParts(s, at, n, t, v);
  }

  lemma ForComes(s: Stmt, f: Flow, at: Node, p: Part, q: Part, r: Part, t: Targets, v: Var)
    requires s.ForLoop? && p.s == s.condition && p.t == t && q.s == s.body && r.s == s.step && r.t == t
    requires q.t == t.(breakJump := Some(f.current), continueJump := Some(r.start))
    requires Ready(p, v) && Ready(q, v) && Ready(r, v) && PartIn(f, p) && PartIn(f, q) && PartIn(f, r) && Reaches(f, v, at, at)
    requires Edge(at, p.start) in f.edges && Edge(FlowOf(p).current, q.start) in f.edges
    requires Edge(FlowOf(q).current, r.start) in f.edges && Edge(FlowOf(p).current, f.current) in f.edges
    ensures AllCome(s, f, at, t, v)
  {
    hide FlowOf, Ready, PartIn, Reaches, Comes, Can;
    Enter(f, v, at, at, p.start);
    if Can(p.s, t.tracked, v, Normal) {
      Pass(f, at, p, v, Normal);
      Enter(f, v, at, FlowOf(p).current, q.start);
      Enter(f, v, at, FlowOf(p).current, f.current);
      forall e | Can(q.s, t.tracked, v, e)
        ensures e == Normal || e == Continued ==> Comes(f, v, at, r.start)
        ensures e == Broke ==> Comes(f, v, at, f.current)
      {
        Pass(f, at, q, v, e);
        if e == Normal {
          Enter(f, v, at, FlowOf(q).current, r.start);
        }
      }
    }
    forall e | Can(s, t.tracked, v, e)
      ensures e == Normal ==> Comes(f, v, at, f.current)
      ensures JumpNode(t, e).Some? ==> Comes(f, v, at, JumpNode(t, e).value)
    {
      CanFor(s, t.tracked, v, e);
      if Can(p.s, t.tracked, v, e) {
        Pass(f, at, p, v, e);
      } else if CanLeave(q.s, t.tracked, v, e) {
        if e != Normal {
          Pass(f, at, q, v, e);
        }
      } else {
        Pass(f, at, r, v, e);
      }
    }
  }

  lemma ForSettles(s: Stmt, p: Part, q: Part, r: Part, t: Targets, v: Var, at: Node, end: Node, x: seq<Edge>, live: iset<Node>)
    requires s.ForLoop? && p.s == s.condition && p.t == t && q.s == s.body && r.s == s.step && r.t == t
    requires q.t == t.(breakJump := Some(end), continueJump := Some(r.start))
    requires live == Live(s, t, v, at, end, ForStarts(s, p.start, q.start, r.start, t, v))
    requires q.start in live ==> Can(p.s, t.tracked, v, Normal)
    requires r.start in live ==> Can(p.s, t.tracked, v, Normal) && CanRound(q.s, t.tracked, v)
    requires forall e | e in x && e.source == FlowOf(p).current :: e.target == q.start || e.target == end
    requires forall e | e in x && e.source == FlowOf(q).current :: e.target == r.start
    requires forall e | e in x && e.source == FlowOf(r).current :: e.target == p.start
    ensures Settles(p, x, live, v) && Settles(q, x, live, v) && Settles(r, x, live, v)
  {
    hide FlowOf, Can;
    forall e
      ensures Can(p.s, t.tracked, v, e) ==> Can(s, t.tracked, v, e)
      ensures r.start in live && Can(r.s, t.tracked, v, e) && e != Normal ==> Can(s, t.tracked, v, e)
    {
      CanFor(s, t.tracked, v, e);
    }
    forall y | JumpsThere(p.s, p.t, v, y)
      ensures y in live
    {
      assert JumpsThere(s, t, v, y);
    }
    forall y | r.start in live && JumpsThere(r.s, r.t, v, y)
      ensures y in live
    {
      var e :| JumpNode(r.t, e) == Some(y) && Can(r.s, t.tracked, v, e);
      assert JumpNode(t, e) == Some(y) && Can(s, t.tracked, v, e);
    }
    forall y | q.start in live && JumpsThere(q.s, q.t, v, y)
      ensures y in live
    {
      var e :| JumpNode(q.t, e) == Some(y) && Can(q.s, t.tracked, v, e);
      CanFor(s, t.tracked, v, e);
      CanFor(s, t.tracked, v, Normal);
      if e == Returned || e == Reverted {
        assert JumpNode(t, e) == Some(y);
      }
    }
  }

  /** The parts of a for loop that can be entered. */
  ghost function ForStarts(s: Stmt, n: Node, m: Node, next: Node, t: Targets, v: Var): iset<Node>
    requires s.ForLoop?
  {
    iset{n}
    + (if Can(s.condition, t.tracked, v, Normal) then iset{m} else iset{})
    + (if Can(s.condition, t.tracked, v, Normal) && CanRound(s.body, t.tracked, v) then iset{next} else iset{})
  }

  lemma AssembledThree(f: Flow, at: Node, x: seq<Edge>, p: Part, q: Part, r: Part, v: Var)
    requires Ready(p, v) && Ready(q, v) && Ready(r, v) && at < p.start
    requires p.start + 1 + Size(p.s) <= q.start && q.start + 1 + Size(q.s) <= r.start
    requires forall e :: e in f.edges <==> e in x || e in FlowOf(p).edges || e in FlowOf(q).edges || e in FlowOf(r).edges
    requires forall e | e in x :: e.source == at || e.source == FlowOf(p).current || e.source == FlowOf(q).current || e.source == FlowOf(r).current
    requires f.kills == FlowOf(p).kills + FlowOf(q).kills + FlowOf(r).kills
    ensures Assembled(f, at, x, [p, q, r]) && PartIn(f, p) && PartIn(f, q) && PartIn(f, r) && Reaches(f, v, at, at)
  {
    hide Build, Size, Faithful, FlowOf, Assembled, PartIn, Reaches;
    var few := Flow(FlowOf(p).edges + FlowOf(q).edges, FlowOf(p).kills + FlowOf(q).kills, 0, []);
    AssembledTwo(few, at, [], p, q, v);
    assert [p, q] + [r] == [p, q, r];
    MoreParts([p], q);
    MoreParts([], p);
    assert [] + [p] == [p] && [p] + [q] == [p, q];
    KillsOwned(p, v);
    KillsOwned(q, v);
    KillsOwned(r, v);
    AssembledMore(few, at, [], [p, q], r, f, x);
    PartInAt(f, at, x, [p, q, r], 0);
    PartInAt(f, at, x, [p, q, r], 1);
    PartInAt(f, at, x, [p, q, r], 2);
    StartReached(f, v, at, x, [p, q, r]);
  }

  function ForEdges(p: Part, q: Part, r: Part, at: Node, end: Node): seq<Edge> {
    [Edge(at, p.start), Edge(FlowOf(p).current, q.start), Edge(FlowOf(q).current, r.start), Edge(FlowOf(r).current, p.start), Edge(FlowOf(p).current, end)]
  }

  /** The edges and kills of a loop with three parts. */
  lemma ThreePartEdges(f: Flow, g: Flow, h: Flow, at: Node, n: Node, m: Node, next: Node, end: Node)
    ensures var whole := LoopFlow(Then(Then(f, g, m), h, next), at, n, f.current, end);
            && whole.current == end && whole.kills == f.kills + g.kills + h.kills
            && forall e :: e in whole.edges <==>
                 || e in [Edge(at, n), Edge(f.current, m), Edge(g.current, next), Edge(h.current, n), Edge(f.current, end)]
                 || e in f.edges || e in g.edges || e in h.edges
  {
  }

  lemma ForAssembled(s: Stmt, at: Node, n: Node, t: Targets, v: Var, p: Part, q: Part, r: Part, end: Node)
    requires s.ForLoop? && at < n && Ready(p, v) && Ready(q, v) && Ready(r, v)
    requires p == Part(s.condition, n, t) && r == Part(s.step, q.start + 1 + Size(s.body), t)
    requires q == Part(s.body, n + 1 + Size(s.condition), t.(breakJump := Some(end), continueJump := Some(r.start)))
    requires end == r.start + 1 + Size(s.step)
    ensures var f := Build(s, at, n, t);
            && f.current == end && Assembled(f, at, ForEdges(p, q, r, at, end), [p, q, r])
            && PartIn(f, p) && PartIn(f, q) && PartIn(f, r) && Reaches(f, v, at, at)
            && Edge(at, n) in f.edges && Edge(FlowOf(p).current, q.start) in f.edges
            && Edge(FlowOf(q).current, r.start) in f.edges && Edge(FlowOf(p).current, end) in f.edges
  {
    hide Build, Size, Assembled, Ready, PartIn, Reaches, LoopFlow, Then;
    ForIs(s, at, n, t);
    var x := ForEdges(p, q, r, at, end);
    ThreePartEdges(FlowOf(p), FlowOf(q), FlowOf(r), at, n, q.start, r.start, end);
    AssembledThree(Build(s, at, n, t), at, x, p, q, r, v);
    assert x[0] == Edge(at, n) && x[1] == Edge(FlowOf(p).current, q.start);
    assert x[2] == Edge(FlowOf(q).current, r.start) && x[4] == Edge(FlowOf(p).current, end);
  }

  lemma ForBehind(p: Part, q: Part, r: Part, at: Node, end: Node, v: Var)
    requires Ready(p, v) && Ready(q, v) && Ready(r, v) && at < p.start
    requires p.start + 1 + Size(p.s) <= q.start && q.start + 1 + Size(q.s) <= r.start
    ensures forall e | e in ForEdges(p, q, r, at, end) && e.source == at :: e.target == p.start
    ensures forall e | e in ForEdges(p, q, r, at, end) && e.source == FlowOf(p).current :: e.target == q.start || e.target == end
    ensures forall e | e in ForEdges(p, q, r, at, end) && e.source == FlowOf(q).current :: e.target == r.start
    ensures forall e | e in ForEdges(p, q, r, at, end) && e.source == FlowOf(r).current :: e.target == p.start
  {
    hide FlowOf, Size, Ready;
    CurrentOwned(p, v);
    CurrentOwned(q, v);
    CurrentOwned(r, v);
  }

  lemma ForParts(s: Stmt, at: Node, n: Node, t: Targets, v: Var)
    requires s.ForLoop? && at < n && Apart(t, at, n, n + Size(s)) && Ready(Part(s.condition, n, t), v)
    requires var m := n + 1 + Size(s.condition);
             var next := m + 1 + Size(s.body);
             && Ready(Part(s.body, m, t.(breakJump := Some(next + 1 + Size(s.step)), continueJump := Some(next))), v)
             && Ready(Part(s.step, next, t), v)
    ensures Faithful(s, Build(s, at, n, t), at, t, v)
  {
    hide Build, Size, Can, Comes, Framed, Faithful, Settles, AllCome, Apart, JumpsThere, Assembled, Ready, PartIn, Reaches, Live, CanRound, FlowOf, ForEdges;
    ForIs(s, at, n, t);
    var m := n + 1 + Size(s.condition);
    var next := m + 1 + Size(s.body);
    var end := next + 1 + Size(s.step);
    var p, r, f := Part(s.condition, n, t), Part(s.step, next, t), Build(s, at, n, t);
    var q := Part(s.body, m, t.(breakJump := Some(end), continueJump := Some(next)));
    var x := ForEdges(p, q, r, at, end);
    ForAssembled(s, at, n, t, v, p, q, r, end);
    ForBehind(p, q, r, at, end, v);
    var starts := ForStarts(s, n, m, next, t, v);
    forall y | (y == m || y == next) && y in Live(s, t, v, at, end, starts)
      ensures y in starts
    {
      LiveStarts(s, t, v, at, n, end + 1, end, starts, y);
    }
    ForSettles(s, p, q, r, t, v, at, end, x, Live(s, t, v, at, end, starts));
    ForComes(s, f, at, p, q, r, t, v);
    assert [p, q, r][0] == p && [p, q, r][1] == q && [p, q, r][2] == r;
    Together(s, f, at, t, n, end + 1, v, x, [p, q, r], starts);
  }

  // ----- the unassigned return variables -----

  /** Some way to the end of the function, or to a return, leaves the variable unassigned. */
  ghost predicate LeftUnassigned(body: Stmt, tracked: set<Var>, v: Var) {
    v in tracked && exists w :: w in Ways(body, tracked, Normal) + Ways(body, tracked, Returned) && Untouched(w, v)
  }

  lemma UnassignedIsCan(body: Stmt, tracked: set<Var>, v: Var)
    ensures LeftUnassigned(body, tracked, v) <==> v in tracked && (Can(body, tracked, v, Normal) || Can(body, tracked, v, Returned))
  {
    hide Ways;
    SparesUnion(Ways(body, tracked, Normal), Ways(body, tracked, Returned), v);
  }

  /** The targets at the outermost level of a function. */
  function OuterTargets(body: Stmt, tracked: set<Var>): Targets {
    Targets(None, None, ExitOf(body), ExitOf(body) + 1, tracked)
  }

  lemma FlowIs(body: Stmt, tracked: set<Var>)
    ensures var f, g := FunctionFlow(body, tracked), Build(body, 0, 1, OuterTargets(body, tracked));
            f == g.(edges := g.edges + [Edge(g.current, ExitOf(body))])
    ensures forall e | e in FunctionFlow(body, tracked).edges :: e.target < Size(body) + 3
    ensures forall k | k in FunctionFlow(body, tracked).kills :: k.node < ExitOf(body)
  {
    hide Build, Size;
    BuildFramed(body, 0, 1, OuterTargets(body, tracked));
  }

  /** More edges give more walks. */
  lemma SameKills(f: Flow, g: Flow, v: Var, a: Node, y: Node)
    requires Comes(g, v, a, y) && f.kills == g.kills && forall e | e in g.edges :: e in f.edges
    ensures Comes(f, v, a, y)
  {
    hide Walk;
    var p :| IsWalk(g, v, p, a, y);
    ComesSelf(f, v, a);
    WalkOn(f, v, a, g, p);
  }

  lemma ExitReached(body: Stmt, tracked: set<Var>, v: Var)
    ensures Comes(FunctionFlow(body, tracked), v, 0, ExitOf(body)) <==> Can(body, tracked, v, Normal) || Can(body, tracked, v, Returned)
  {
    hide Build, Size, Can, Comes, Walk, FunctionFlow;
    var t, exit := OuterTargets(body, tracked), ExitOf(body);
    var f, g := FunctionFlow(body, tracked), Build(body, 0, 1, t);
    FlowIs(body, tracked);
    BuildFramed(body, 0, 1, t);
    BuildFaithful(body, 0, 1, t, v);
    assert JumpNode(t, Returned) == Some(exit);
    var inside := iset z: Node | Comes(g, v, 0, z) || (z == exit && Can(body, tracked, v, Normal));
    ComesSelf(g, v, 0);
    forall e | e in f.edges && e.source in inside && Spared(f, e.source, v)
      ensures e.target in inside
    {
      if e in g.edges {
        assert Spared(g, e.source, v);
        ComesStep(g, v, 0, e.source, e.target);
      }
    }
    if Comes(f, v, 0, exit) {
      ComesInside(f, v, 0, exit, inside);
      assert Spared(g, exit, v);
    }
    forall y | Comes(g, v, 0, y)
      ensures Comes(f, v, 0, y)
    {
      SameKills(f, g, v, 0, y);
    }
    if Can(body, tracked, v, Normal) {
      assert f.edges[|g.edges|] == Edge(g.current, exit);
      assert Spared(f, g.current, v);
      ComesStep(f, v, 0, g.current, exit);
    }
  }

  lemma {:induction false} KillsAre(f: Flow, x: Node, v: Var)
    ensures v !in KillsOf(f.kills, x) <==> Spared(f, x, v)
    decreases |f.kills|
  {
    if f.kills != [] {
      KillsAre(f.(kills := f.kills[1..]), x, v);
      assert f.kills == [f.kills[0]] + f.kills[1..];
    }
  }

  /** Paths in the graph are walks in the flow. */
  lemma SurvivesIsComes(body: Stmt, tracked: set<Var>, v: Var)
    requires WellFormed(FunctionGraph(body, tracked))
    ensures Survives(FunctionGraph(body, tracked), ExitOf(body), v) <==> v in tracked && Comes(FunctionFlow(body, tracked), v, 0, ExitOf(body))
  {
    hide FunctionFlow, TargetsOf, KillsOf, Spared, Size;
    var g, f, exit := FunctionGraph(body, tracked), FunctionFlow(body, tracked), ExitOf(body);
    FlowIs(body, tracked);
    if Survives(g, exit, v) {
      var p :| Leaves(g, p, exit, v);
      forall i | 0 < i < |p|
        ensures StepAt(f, v, p, i)
      {
        assert p[i - 1 + 1] in g.exits[p[i - 1]];
        TargetsAre(f.edges, p[i - 1], p[i]);
        KillsAre(f, p[i - 1], v);
      }
      assert IsWalk(f, v, p, 0, exit);
    }
    if v in tracked && Comes(f, v, 0, exit) {
      var p :| IsWalk(f, v, p, 0, exit);
      forall i | 0 <= i < |p|
        ensures p[i] < |g.exits|
      {
        assert i > 0 ==> StepAt(f, v, p, i);
      }
      forall i | 0 <= i < |p| - 1
        ensures p[i + 1] in g.exits[p[i]] && v !in g.kills[p[i]]
      {
        assert StepAt(f, v, p, i + 1);
        TargetsAre(f.edges, p[i], p[i + 1]);
        KillsAre(f, p[i], v);
      }
      ExitKillsNothing(body, tracked, v);
      KillsAre(f, exit, v);
      assert Leaves(g, p, exit, v);
    }
  }

  lemma ExitKillsNothing(body: Stmt, tracked: set<Var>, v: Var)
    ensures Spared(FunctionFlow(body, tracked), ExitOf(body), v)
  {
    hide FunctionFlow, Size;
    FlowIs(body, tracked);
  }

  /** A variable survives to the exit of the graph if and only if some way through the function spares it. */
  lemma GraphHasTheWays(body: Stmt, tracked: set<Var>, v: Var)
    ensures WellFormed(FunctionGraph(body, tracked))
    ensures Survives(FunctionGraph(body, tracked), ExitOf(body), v) <==> LeftUnassigned(body, tracked, v)
  {
    hide FunctionGraph, FunctionFlow, Survives, Can, LeftUnassigned, Comes, Size, ExitOf;
    FunctionWellFormed(body, tracked);
    SurvivesIsComes(body, tracked, v);
    ExitReached(body, tracked, v);
    UnassignedIsCan(body, tracked, v);
  }

  /** The return variables that some way through a function leaves unassigned. */
  method CheckUnassigned(body: Stmt, tracked: set<Var>) returns (unassigned: set<Var>)
    ensures forall v :: v in unassigned <==> LeftUnassigned(body, tracked, v)
  {
    hide FunctionGraph, Calm, Survives, Size, LeftUnassigned;
    FunctionsEnd(body, tracked);
    FunctionNodes(body, tracked);
    unassigned := FindUnassigned(FunctionGraph(body, tracked), ExitOf(body));
    forall v
      ensures v in unassigned <==> LeftUnassigned(body, tracked, v)
    {
      GraphHasTheWays(body, tracked, v);
    }
  }
}
