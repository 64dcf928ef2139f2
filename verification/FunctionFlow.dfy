/** The control flow graphs of functions (libsolidity/analysis/ControlFlowBuilder.cpp): all their loops
    have a single entry, so the search for unassigned return variables ends on every one of them.
    Nodes are numbered in the order in which they become current. */
module FunctionFlows {
  import opened Wrappers
  import opened UnassignedReturns

  /** What the builder tells apart in statements and expressions. */
  datatype Stmt =
    | Plain(kills: set<Var>)                 // assignments and inline assembly
    | Sequence(first: Stmt, second: Stmt)
    | Block(body: Stmt)
    | Optional(body: Stmt)                   // the right operand of && and ||, an if without else
    | Either(left: Stmt, right: Stmt)        // both branches of an if or of a conditional
    | While(condition: Stmt, body: Stmt)
    | DoWhile(body: Stmt, condition: Stmt)
    | ForLoop(condition: Stmt, step: Stmt, body: Stmt)   // a for statement behind its initialisation
    | Break | Continue
    | Revert                                 // throw and revert
    | Require                                // require and assert
    | Return(clears: bool, value: Stmt)      // the value is only visited behind the jump

  /** The number of labels that are placed. */
  function Size(s: Stmt): nat {
    match s
    case Plain(_) => 0
    case Sequence(a, b) => Size(a) + Size(b)
    case Block(a) => Size(a) + 2
    case Optional(a) => Size(a) + 2
    case Either(a, b) => Size(a) + Size(b) + 3
    case While(c, a) => Size(c) + Size(a) + 3
    case DoWhile(a, c) => Size(a) + Size(c) + 3
    case ForLoop(c, t, a) => Size(c) + Size(t) + Size(a) + 4
    case Break => 1
    case Continue => 1
    case Revert => 1
    case Require => 1
    case Return(_, a) => Size(a) + 1
  }

  datatype Edge = Edge(source: Node, target: Node)

  datatype Kill = Kill(node: Node, vars: set<Var>)

  /** Where jumps lead to. */
  datatype Targets = Targets(breakJump: Option<Node>, continueJump: Option<Node>, exit: Node, revert: Node, tracked: set<Var>)

  /** Edges and kills of a part of the flow, and the node where it ends. The loops are given by their
      entry and the first node behind them. */
  datatype Flow = Flow(edges: seq<Edge>, kills: seq<Kill>, current: Node, loops: seq<Loop>)

  datatype Loop = Loop(head: Node, end: Node)

  function Jump(at: Node, target: Option<Node>): seq<Edge> {
    if target.Some? then [Edge(at, target.value)] else []
  }

  function Follow(f: Flow, g: Flow): Flow {
    Flow(f.edges + g.edges, f.kills + g.kills, g.current, f.loops + g.loops)
  }

  /** The second flow starts at label m, to which the first one leads. */
  function Then(f: Flow, g: Flow, m: Node): Flow {
    Flow(f.edges + [Edge(f.current, m)] + g.edges, f.kills + g.kills, g.current, f.loops + g.loops)
  }

  /** Two branches that start at the labels n and m and meet at `end`. */
  function EitherFlow(f: Flow, g: Flow, at: Node, n: Node, m: Node, end: Node): Flow {
    Flow([Edge(at, n)] + f.edges + [Edge(at, m)] + g.edges + [Edge(f.current, end), Edge(g.current, end)],
         f.kills + g.kills, end, f.loops + g.loops)
  }

  /** A loop with head n, which is left from one node to `end`. */
  function LoopFlow(inner: Flow, at: Node, n: Node, leaving: Node, end: Node): Flow {
    Flow([Edge(at, n)] + inner.edges + [Edge(inner.current, n)] + [Edge(leaving, end)], inner.kills, end, [Loop(n, end)] + inner.loops)
  }

  /** The flow of a statement that starts at node `at`; n is the first free label. */
  function Build(s: Stmt, at: Node, n: Node, t: Targets): Flow
    decreases s, 1
  {
    match s
    case Plain(k) => Flow([], [Kill(at, k)], at, [])
    case Sequence(a, b) => BuildSequence(a, b, at, n, t)
    case Block(a) =>
      var f := Build(a, n, n + 1, t);
      var end := n + 1 + Size(a);
      Flow([Edge(at, n)] + f.edges + [Edge(f.current, end)], f.kills, end, f.loops)
    case Optional(a) =>
      var f := Build(a, n, n + 1, t);
      var end := n + 1 + Size(a);
      Flow([Edge(at, n)] + f.edges + [Edge(at, end), Edge(f.current, end)], f.kills, end, f.loops)
    case Either(a, b) => BuildEither(a, b, at, n, t)
    case While(c, a) => BuildWhile(c, a, at, n, t)
    case DoWhile(a, c) => BuildDoWhile(a, c, at, n, t)
    case ForLoop(c, step, a) => BuildForLoop(c, step, a, at, n, t)
    case Break => Flow(Jump(at, t.breakJump), [], n, [])
    case Continue => Flow(Jump(at, t.continueJump), [], n, [])
    case Revert => Flow([Edge(at, t.revert)], [], n, [])
    case Require => Flow([Edge(at, t.revert)] + [Edge(at, n)], [], n, [])
    case Return(clears, a) =>
      var f := Build(a, n, n + 1, t);
      Flow([Edge(at, t.exit)] + f.edges, [Kill(at, if clears then t.tracked else {})] + f.kills, f.current, f.loops)
  }

  function BuildSequence(a: Stmt, b: Stmt, at: Node, n: Node, t: Targets): Flow
    decreases Sequence(a, b), 0
  {
    var f := Build(a, at, n, t);
    Follow(f, Build(b, f.current, n + Size(a), t))
  }

  function BuildEither(a: Stmt, b: Stmt, at: Node, n: Node, t: Targets): Flow
    decreases Either(a, b), 0
  {
    var m := n + 1 + Size(a);
    EitherFlow(Build(a, n, n + 1, t), Build(b, m, m + 1, t), at, n, m, m + 1 + Size(b))
  }

  function BuildWhile(c: Stmt, a: Stmt, at: Node, n: Node, t: Targets): Flow
    decreases While(c, a), 0
  {
    var m := n + 1 + Size(c);
    var end := m + 1 + Size(a);
    var f, g := Build(c, n, n + 1, t), Build(a, m, m + 1, t.(breakJump := Some(end), continueJump := Some(n)));
    LoopFlow(Then(f, g, m), at, n, f.current, end)
  }

  function BuildDoWhile(a: Stmt, c: Stmt, at: Node, n: Node, t: Targets): Flow
    decreases DoWhile(a, c), 0
  {
    var m := n + 1 + Size(a);
    var end := m + 1 + Size(c);
    var f, g := Build(a, n, n + 1, t.(breakJump := Some(end), continueJump := Some(m))), Build(c, m, m + 1, t);
    LoopFlow(Then(f, g, m), at, n, g.current, end)
  }

  function BuildForLoop(c: Stmt, step: Stmt, a: Stmt, at: Node, n: Node, t: Targets): Flow
    decreases ForLoop(c, step, a), 0
  {
    var m := n + 1 + Size(c);
    var next := m + 1 + Size(a);
    var end := next + 1 + Size(step);
    var f, g := Build(c, n, n + 1, t), Build(a, m, m + 1, t.(breakJump := Some(end), continueJump := Some(next)));
    LoopFlow(Then(Then(f, g, m), Build(step, next, next + 1, t), next), at, n, f.current, end)
  }

  // ----- tidy flows -----

  predicate InLoop(loops: seq<Loop>, h: Node, x: Node) {
    exists l :: l in loops && l.head == h && h <= x < l.end
  }

  /** The edge stays in its part of the numbering or leads to one of the outer targets. */
  predicate Within(e: Edge, at: Node, n: Node, hi: Node, outs: set<Node>, back: set<Node>) {
    (e.source == at || n <= e.source < hi) && (n <= e.target < hi || e.target in outs || e.target in back)
  }

  /** A loop cannot be entered but at its head. */
  predicate Sealed(l: Loop, edges: seq<Edge>) {
    forall e | e in edges && l.head < e.target < l.end :: l.head <= e.source < l.end
  }

  /** Edges lead forward, except to heads of loops around their source. The labels n to hi are placed
      here; outs are later labels, back the heads of loops around all this. */
  predicate Tidy(edges: seq<Edge>, loops: seq<Loop>, at: Node, n: Node, hi: Node, outs: set<Node>, back: set<Node>) {
    && (forall e | e in edges :: Within(e, at, n, hi, outs, back))
    && (forall e | e in edges && e.target <= e.source :: e.target in back || InLoop(loops, e.target, e.source))
    && (forall l | l in loops :: n <= l.head < l.end <= hi && Sealed(l, edges))
  }

  predicate Outside(n: Node, hi: Node, outs: set<Node>, back: set<Node>) {
    (forall o | o in outs :: o >= hi) && (forall b | b in back :: b < n)
  }

  /** Jumps to labels outside. */
  lemma TidyJump(edges: seq<Edge>, at: Node, n: Node, outs: set<Node>, back: set<Node>)
    requires at < n && Outside(n, n, outs, back)
    requires forall e | e in edges :: e.source == at && (e.target in outs || e.target in back)
    ensures Tidy(edges, [], at, n, n, outs, back)
  {
  }

  lemma TidySequence(f: seq<Edge>, fl: seq<Loop>, g: seq<Edge>, gl: seq<Loop>, at: Node, mid: Node, n: Node, m: Node, hi: Node, outs: set<Node>, back: set<Node>)
    requires at < n <= m <= hi && Outside(n, hi, outs, back) && (mid == at || n <= mid < m)
    requires Tidy(f, fl, at, n, m, outs, back) && Tidy(g, gl, mid, m, hi, outs, back)
    ensures Tidy(f + g, fl + gl, at, n, hi, outs, back)
  {
    var edges, loops := f + g, fl + gl;
    forall e | e in edges
      ensures Within(e, at, n, hi, outs, back)
      ensures e.target <= e.source ==> e.target in back || InLoop(loops, e.target, e.source)
    {
      if e in f {
        assert Within(e, at, n, m, outs, back);
        assert InLoop(fl, e.target, e.source) ==> InLoop(loops, e.target, e.source);
      } else {
        assert Within(e, mid, m, hi, outs, back);
        assert InLoop(gl, e.target, e.source) ==> InLoop(loops, e.target, e.source);
      }
    }
    forall l | l in loops
      ensures n <= l.head < l.end <= hi && Sealed(l, edges)
    {
      forall e | e in edges && l.head < e.target < l.end
        ensures l.head <= e.source < l.end
      {
        if e in f {
          assert Within(e, at, n, m, outs, back);
        } else {
          assert Within(e, mid, m, hi, outs, back);
        }
        if l in fl {
          assert Sealed(l, f);
        } else {
          assert Sealed(l, g);
        }
      }
    }
  }

  /** Placing the next label, with edges to it from before. */
  lemma TidyLabel(f: seq<Edge>, loops: seq<Loop>, g: seq<Edge>, at: Node, n: Node, hi: Node, outs: set<Node>, back: set<Node>)
    requires at < n <= hi && Outside(n, hi + 1, outs, back)
    requires Tidy(f, loops, at, n, hi, outs + {hi}, back)
    requires forall e | e in g :: e.target == hi && (e.source == at || n <= e.source < hi)
    ensures Tidy(f + g, loops, at, n, hi + 1, outs, back)
  {
    var edges := f + g;
    forall e | e in edges
      ensures Within(e, at, n, hi + 1, outs, back)
    {
      if e in f {
        assert Within(e, at, n, hi, outs + {hi}, back);
      }
    }
    forall l | l in loops
      ensures Sealed(l, edges)
    {
      assert Sealed(l, f);
    }
  }

  /** Closing a loop: its head is n, and its last node leads back there. */
  lemma TidyLoop(f: seq<Edge>, loops: seq<Loop>, at: Node, cur: Node, n: Node, hi: Node, outs: set<Node>, back: set<Node>)
    requires at < n < hi && Outside(n, hi, outs, back) && n <= cur < hi
    requires Tidy(f, loops, n, n + 1, hi, outs, back + {n})
    ensures Tidy([Edge(at, n)] + f + [Edge(cur, n)], [Loop(n, hi)] + loops, at, n, hi, outs, back)
  {
    var edges, all := [Edge(at, n)] + f + [Edge(cur, n)], [Loop(n, hi)] + loops;
    assert Loop(n, hi) in all;
    forall e | e in edges
      ensures Within(e, at, n, hi, outs, back)
      ensures e.target <= e.source ==> e.target in back || InLoop(all, e.target, e.source)
    {
      if e in f {
        assert Within(e, n, n + 1, hi, outs, back + {n});
        assert InLoop(loops, e.target, e.source) ==> InLoop(all, e.target, e.source);
      }
    }
    forall l | l in all
      ensures n <= l.head < l.end <= hi && Sealed(l, edges)
    {
      forall e | e in edges && l.head < e.target < l.end
        ensures l.head <= e.source < l.end
      {
        assert e in f;
        assert Within(e, n, n + 1, hi, outs, back + {n});
        if l in loops {
          assert Sealed(l, f);
        }
      }
    }
  }

  /** A new label with edges to it from before, followed by the flow that starts there. */
  lemma TidyPart(f: seq<Edge>, fl: seq<Loop>, x: seq<Edge>, g: seq<Edge>, gl: seq<Loop>, at: Node, n: Node, m: Node, hi: Node, outs: set<Node>, back: set<Node>)
    requires at < n <= m < hi && Outside(n, hi, outs, back)
    requires Tidy(f, fl, at, n, m, outs + {m}, back) && Tidy(g, gl, m, m + 1, hi, outs, back)
    requires forall e | e in x :: e.target == m && (e.source == at || n <= e.source < m)
    ensures Tidy(f + x + g, fl + gl, at, n, hi, outs, back)
  {
    hide Tidy;
    TidyLabel(f, fl, x, at, n, m, outs, back);
    TidySequence(f + x, fl, g, gl, at, m, n, m + 1, hi, outs, back);
  }

  // ----- every statement has a tidy flow -----

  /** Where jumps out of a statement may lead. */
  predicate JumpsTo(t: Targets, outs: set<Node>, back: set<Node>) {
    && t.exit in outs && t.revert in outs
    && (t.breakJump.Some? ==> t.breakJump.value in outs)
    && (t.continueJump.Some? ==> t.continueJump.value in outs || t.continueJump.value in back)
  }

  /** The flow of a statement that starts at `at` and places the labels from n on. */
  predicate Good(s: Stmt, f: Flow, at: Node, n: Node, outs: set<Node>, back: set<Node>) {
    Tidy(f.edges, f.loops, at, n, n + Size(s), outs, back) && (f.current == at || n <= f.current < n + Size(s))
  }

  lemma {:induction false} BuildGood(s: Stmt, at: Node, n: Node, t: Targets, outs: set<Node>, back: set<Node>)
    requires at < n && JumpsTo(t, outs, back) && Outside(n, n + Size(s), outs, back)
    ensures Good(s, Build(s, at, n, t), at, n, outs, back)
    decreases s, 2
  {
    hide Tidy;
    match s {
      case Plain(_) => TidyJump([], at, n, outs, back);
      case Sequence(_, _) => SequenceGood(s, at, n, t, outs, back);
      case Block(_) => BlockGood(s, at, n, t, outs, back);
      case Optional(_) => OptionalGood(s, at, n, t, outs, back);
      case Either(_, _) => EitherGood(s, at, n, t, outs, back);
      case While(_, _) => WhileGood(s, at, n, t, outs, back);
      case DoWhile(_, _) => DoWhileGood(s, at, n, t, outs, back);
      case ForLoop(_, _, _) => ForGood(s, at, n, t, outs, back);
      case Break => LabelGood(Jump(at, t.breakJump), [], at, n, outs, back);
      case Continue => LabelGood(Jump(at, t.continueJump), [], at, n, outs, back);
      case Revert => LabelGood([Edge(at, t.revert)], [], at, n, outs, back);
      case Require => LabelGood([Edge(at, t.revert)], [Edge(at, n)], at, n, outs, back);
      case Return(_, _) => ReturnGood(s, at, n, t, outs, back);
    }
  }

  /** A jump away, followed by a fresh label. */
  lemma LabelGood(f: seq<Edge>, g: seq<Edge>, at: Node, n: Node, outs: set<Node>, back: set<Node>)
    requires at < n && Outside(n, n + 1, outs, back)
    requires forall e | e in f :: e.source == at && (e.target in outs || e.target in back)
    requires forall e | e in g :: e == Edge(at, n)
    ensures Tidy(f + g, [], at, n, n + 1, outs, back) && Tidy(f, [], at, n, n + 1, outs, back)
  {
    hide Tidy;
    TidyJump(f, at, n, outs + {n}, back);
    TidyLabel(f, [], g, at, n, n, outs, back);
    TidyLabel(f, [], [], at, n, n, outs, back);
    assert f + [] == f;
  }

  /** A flow that starts at its own label n, which is also its head. */
  predicate GoodAt(f: Flow, n: Node, hi: Node, outs: set<Node>, back: set<Node>) {
    Tidy(f.edges, f.loops, n, n + 1, hi, outs, back) && n <= f.current < hi
  }

  lemma FollowGood(f: Flow, g: Flow, at: Node, n: Node, m: Node, hi: Node, outs: set<Node>, back: set<Node>)
    requires at < n <= m <= hi && Outside(n, hi, outs, back) && (f.current == at || n <= f.current < m)
    requires Tidy(f.edges, f.loops, at, n, m, outs, back) && Tidy(g.edges, g.loops, f.current, m, hi, outs, back)
    ensures Tidy(Follow(f, g).edges, Follow(f, g).loops, at, n, hi, outs, back)
  {
    hide Tidy;
    TidySequence(f.edges, f.loops, g.edges, g.loops, at, f.current, n, m, hi, outs, back);
  }

  lemma ThenGood(f: Flow, g: Flow, n: Node, m: Node, hi: Node, outs: set<Node>, back: set<Node>)
    requires n < m < hi && Outside(n + 1, hi, outs, back)
    requires GoodAt(f, n, m, outs + {m}, back) && GoodAt(g, m, hi, outs, back)
    ensures GoodAt(Then(f, g, m), n, hi, outs, back)
  {
    hide Tidy;
    TidyPart(f.edges, f.loops, [Edge(f.current, m)], g.edges, g.loops, n, n + 1, m, hi, outs, back);
  }

  lemma EitherFlowGood(f: Flow, g: Flow, at: Node, n: Node, m: Node, end: Node, outs: set<Node>, back: set<Node>)
    requires at < n < m < end && Outside(n, end + 1, outs, back)
    requires GoodAt(f, n, m, outs + {end} + {m}, back) && GoodAt(g, m, end, outs + {end}, back)
    ensures Tidy(EitherFlow(f, g, at, n, m, end).edges, EitherFlow(f, g, at, n, m, end).loops, at, n, end + 1, outs, back)
  {
    hide Tidy;
    PartGood(f.edges, f.loops, at, n, m, outs + {end} + {m}, back);
    TidyPart([Edge(at, n)] + f.edges, f.loops, [Edge(at, m)], g.edges, g.loops, at, n, m, end, outs + {end}, back);
    TidyLabel([Edge(at, n)] + f.edges + [Edge(at, m)] + g.edges, f.loops + g.loops, [Edge(f.current, end), Edge(g.current, end)], at, n, end, outs, back);
  }

  lemma LoopFlowGood(inner: Flow, at: Node, n: Node, leaving: Node, end: Node, outs: set<Node>, back: set<Node>)
    requires at < n < end && Outside(n, end + 1, outs, back) && n <= leaving < end
    requires GoodAt(inner, n, end, outs + {end}, back + {n})
    ensures Tidy(LoopFlow(inner, at, n, leaving, end).edges, LoopFlow(inner, at, n, leaving, end).loops, at, n, end + 1, outs, back)
  {
    hide Tidy;
    TidyLoop(inner.edges, inner.loops, at, inner.current, n, end, outs + {end}, back);
    TidyLabel([Edge(at, n)] + inner.edges + [Edge(inner.current, n)], [Loop(n, end)] + inner.loops, [Edge(leaving, end)], at, n, end, outs, back);
  }

  /** A part of a statement, behind its own label. */
  lemma {:induction false} PartBuilt(whole: Stmt, a: Stmt, n: Node, t: Targets, outs: set<Node>, back: set<Node>)
    requires a < whole && JumpsTo(t, outs, back) && Outside(n + 1, n + 1 + Size(a), outs, back)
    ensures GoodAt(Build(a, n, n + 1, t), n, n + 1 + Size(a), outs, back)
    decreases whole, 0
  {
    hide Tidy;
    BuildGood(a, n, n + 1, t, outs, back);
  }

  lemma {:induction false} SequenceIs(s: Stmt, at: Node, n: Node, t: Targets)
    requires s.Sequence?
    ensures Size(s) == Size(s.first) + Size(s.second)
    ensures Build(s, at, n, t) == BuildSequence(s.first, s.second, at, n, t)
  {
    hide BuildSequence;
  }

  lemma {:induction false} SequenceGood(s: Stmt, at: Node, n: Node, t: Targets, outs: set<Node>, back: set<Node>)
    requires s.Sequence? && at < n && JumpsTo(t, outs, back) && Outside(n, n + Size(s), outs, back)
    ensures Good(s, Build(s, at, n, t), at, n, outs, back)
    decreases s, 0
  {
    hide Tidy, Follow, Build, Size;
    SequenceIs(s, at, n, t);
    var m := n + Size(s.first);
    var f := Build(s.first, at, n, t);
    BuildGood(s.first, at, n, t, outs, back);
    BuildGood(s.second, f.current, m, t, outs, back);
    FollowGood(f, Build(s.second, f.current, m, t), at, n, m, m + Size(s.second), outs, back);
    FollowEnds(f, Build(s.second, f.current, m, t));
  }

  lemma FollowEnds(f: Flow, g: Flow)
    ensures Follow(f, g).current == g.current
  {
  }

  lemma {:induction false} BlockIs(s: Stmt, at: Node, n: Node, t: Targets)
    requires s.Block?
    ensures Size(s) == Size(s.body) + 2
    ensures var f, end := Build(s.body, n, n + 1, t), n + 1 + Size(s.body);
            Build(s, at, n, t) == Flow([Edge(at, n)] + f.edges + [Edge(f.current, end)], f.kills, end, f.loops)
  {
  }

  lemma {:induction false} BlockGood(s: Stmt, at: Node, n: Node, t: Targets, outs: set<Node>, back: set<Node>)
    requires s.Block? && at < n && JumpsTo(t, outs, back) && Outside(n, n + Size(s), outs, back)
    ensures Good(s, Build(s, at, n, t), at, n, outs, back)
    decreases s, 0
  {
    hide Tidy, Build, Size;
    BlockIs(s, at, n, t);
    var f, end := Build(s.body, n, n + 1, t), n + 1 + Size(s.body);
    BuildGood(s.body, n, n + 1, t, outs + {end}, back);
    PartGood(f.edges, f.loops, at, n, end, outs + {end}, back);
    TidyLabel([Edge(at, n)] + f.edges, f.loops, [Edge(f.current, end)], at, n, end, outs, back);
  }

  /** A flow behind a label that is placed first. */
  lemma PartGood(f: seq<Edge>, fl: seq<Loop>, at: Node, n: Node, hi: Node, outs: set<Node>, back: set<Node>)
    requires at < n < hi && Outside(n, hi, outs, back) && Tidy(f, fl, n, n + 1, hi, outs, back)
    ensures Tidy([Edge(at, n)] + f, fl, at, n, hi, outs, back)
  {
    hide Tidy;
    TidyJump([], at, n, outs + {n}, back);
    TidyPart([], [], [Edge(at, n)], f, fl, at, n, n, hi, outs, back);
    assert [] + [Edge(at, n)] == [Edge(at, n)] && [] + fl == fl;
  }

  lemma {:induction false} OptionalIs(s: Stmt, at: Node, n: Node, t: Targets)
    requires s.Optional?
    ensures Size(s) == Size(s.body) + 2
    ensures var f, end := Build(s.body, n, n + 1, t), n + 1 + Size(s.body);
            Build(s, at, n, t) == Flow([Edge(at, n)] + f.edges + [Edge(at, end), Edge(f.current, end)], f.kills, end, f.loops)
  {
  }

  lemma {:induction false} OptionalGood(s: Stmt, at: Node, n: Node, t: Targets, outs: set<Node>, back: set<Node>)
    requires s.Optional? && at < n && JumpsTo(t, outs, back) && Outside(n, n + Size(s), outs, back)
    ensures Good(s, Build(s, at, n, t), at, n, outs, back)
    decreases s, 0
  {
    hide Tidy, Build, Size;
    OptionalIs(s, at, n, t);
    var f, end := Build(s.body, n, n + 1, t), n + 1 + Size(s.body);
    BuildGood(s.body, n, n + 1, t, outs + {end}, back);
    PartGood(f.edges, f.loops, at, n, end, outs + {end}, back);
    TidyLabel([Edge(at, n)] + f.edges, f.loops, [Edge(at, end), Edge(f.current, end)], at, n, end, outs, back);
  }

  lemma {:induction false} EitherIs(s: Stmt, at: Node, n: Node, t: Targets)
    requires s.Either?
    ensures Size(s) == Size(s.left) + Size(s.right) + 3
    ensures Build(s, at, n, t) == BuildEither(s.left, s.right, at, n, t)
  {
    hide BuildEither;
  }

  lemma {:induction false} EitherGood(s: Stmt, at: Node, n: Node, t: Targets, outs: set<Node>, back: set<Node>)
    requires s.Either? && at < n && JumpsTo(t, outs, back) && Outside(n, n + Size(s), outs, back)
    ensures Good(s, Build(s, at, n, t), at, n, outs, back)
    decreases s, 1
  {
    hide Tidy, GoodAt, Build, Size;
    EitherIs(s, at, n, t);
    var m := n + 1 + Size(s.left);
    var end := m + 1 + Size(s.right);
    PartBuilt(s, s.left, n, t, outs + {end} + {m}, back);
    PartBuilt(s, s.right, m, t, outs + {end}, back);
    EitherFlowGood(Build(s.left, n, n + 1, t), Build(s.right, m, m + 1, t), at, n, m, end, outs, back);
  }

  lemma {:induction false} WhileIs(s: Stmt, at: Node, n: Node, t: Targets)
    requires s.While?
    ensures Size(s) == Size(s.condition) + Size(s.body) + 3
    ensures Build(s, at, n, t) == BuildWhile(s.condition, s.body, at, n, t)
  {
    hide BuildWhile;
  }

  lemma {:induction false} WhileGood(s: Stmt, at: Node, n: Node, t: Targets, outs: set<Node>, back: set<Node>)
    requires s.While? && at < n && JumpsTo(t, outs, back) && Outside(n, n + Size(s), outs, back)
    ensures Good(s, Build(s, at, n, t), at, n, outs, back)
    decreases s, 1
  {
    hide Tidy, Build, Size;
    WhileIs(s, at, n, t);
    var m := n + 1 + Size(s.condition);
    var end := m + 1 + Size(s.body);
    var t' := t.(breakJump := Some(end), continueJump := Some(n));
    var f, g := Build(s.condition, n, n + 1, t), Build(s.body, m, m + 1, t');
    PartBuilt(s, s.condition, n, t, outs + {end} + {m}, back + {n});
    PartBuilt(s, s.body, m, t', outs + {end}, back + {n});
    ThenGood(f, g, n, m, end, outs + {end}, back + {n});
    LoopFlowGood(Then(f, g, m), at, n, f.current, end, outs, back);
  }

  lemma {:induction false} DoWhileIs(s: Stmt, at: Node, n: Node, t: Targets)
    requires s.DoWhile?
    ensures Size(s) == Size(s.body) + Size(s.condition) + 3
    ensures Build(s, at, n, t) == BuildDoWhile(s.body, s.condition, at, n, t)
  {
    hide BuildDoWhile;
  }

  lemma {:induction false} DoWhileGood(s: Stmt, at: Node, n: Node, t: Targets, outs: set<Node>, back: set<Node>)
    requires s.DoWhile? && at < n && JumpsTo(t, outs, back) && Outside(n, n + Size(s), outs, back)
    ensures Good(s, Build(s, at, n, t), at, n, outs, back)
    decreases s, 1
  {
    hide Tidy, Build, Size;
    DoWhileIs(s, at, n, t);
    var m := n + 1 + Size(s.body);
    var end := m + 1 + Size(s.condition);
    var t' := t.(breakJump := Some(end), continueJump := Some(m));
    var f, g := Build(s.body, n, n + 1, t'), Build(s.condition, m, m + 1, t);
    PartBuilt(s, s.body, n, t', outs + {end} + {m}, back + {n});
    PartBuilt(s, s.condition, m, t, outs + {end}, back + {n});
    ThenGood(f, g, n, m, end, outs + {end}, back + {n});
    LoopFlowGood(Then(f, g, m), at, n, g.current, end, outs, back);
  }

  lemma {:induction false} ForIs(s: Stmt, at: Node, n: Node, t: Targets)
    requires s.ForLoop?
    ensures Size(s) == Size(s.condition) + Size(s.step) + Size(s.body) + 4
    ensures Build(s, at, n, t) == BuildForLoop(s.condition, s.step, s.body, at, n, t)
  {
    hide BuildForLoop;
  }

  lemma {:induction false} ForGood(s: Stmt, at: Node, n: Node, t: Targets, outs: set<Node>, back: set<Node>)
    requires s.ForLoop? && at < n && JumpsTo(t, outs, back) && Outside(n, n + Size(s), outs, back)
    ensures Good(s, Build(s, at, n, t), at, n, outs, back)
    decreases s, 1
  {
    hide Tidy, Build, Size;
    ForIs(s, at, n, t);
    var m := n + 1 + Size(s.condition);
    var next := m + 1 + Size(s.body);
    var end := next + 1 + Size(s.step);
    var t' := t.(breakJump := Some(end), continueJump := Some(next));
    var f, g, h := Build(s.condition, n, n + 1, t), Build(s.body, m, m + 1, t'), Build(s.step, next, next + 1, t);
    PartBuilt(s, s.condition, n, t, outs + {end} + {next} + {m}, back + {n});
    PartBuilt(s, s.body, m, t', outs + {end} + {next}, back + {n});
    ThenGood(f, g, n, m, next, outs + {end} + {next}, back + {n});
    PartBuilt(s, s.step, next, t, outs + {end}, back + {n});
    ThenGood(Then(f, g, m), h, n, next, end, outs + {end}, back + {n});
    LoopFlowGood(Then(Then(f, g, m), h, next), at, n, f.current, end, outs, back);
  }

  lemma {:induction false} ReturnIs(s: Stmt, at: Node, n: Node, t: Targets)
    requires s.Return?
    ensures Size(s) == Size(s.value) + 1
    ensures var f := Build(s.value, n, n + 1, t);
            Build(s, at, n, t) == Flow([Edge(at, t.exit)] + f.edges, [Kill(at, if s.clears then t.tracked else {})] + f.kills, f.current, f.loops)
  {
  }

  lemma {:induction false} ReturnGood(s: Stmt, at: Node, n: Node, t: Targets, outs: set<Node>, back: set<Node>)
    requires s.Return? && at < n && JumpsTo(t, outs, back) && Outside(n, n + Size(s), outs, back)
    ensures Good(s, Build(s, at, n, t), at, n, outs, back)
    decreases s, 0
  {
    hide Tidy, Build, Size;
    ReturnIs(s, at, n, t);
    var hi := n + 1 + Size(s.value);
    var f := Build(s.value, n, n + 1, t);
    LabelGood([Edge(at, t.exit)], [], at, n, outs, back);
    BuildGood(s.value, n, n + 1, t, outs, back);
    TidySequence([Edge(at, t.exit)], [], f.edges, f.loops, at, n, n, n + 1, hi, outs, back);
    assert [] + f.loops == f.loops;
  }

  // ----- the graph of a function -----

  function TargetsOf(edges: seq<Edge>, x: Node): seq<Node> {
    if edges == [] then []
    else (if edges[0].source == x then [edges[0].target] else []) + TargetsOf(edges[1..], x)
  }

  lemma {:induction false} TargetsAre(edges: seq<Edge>, x: Node, y: Node)
    ensures y in TargetsOf(edges, x) <==> Edge(x, y) in edges
  {
    if edges != [] {
      TargetsAre(edges[1..], x, y);
      assert edges == [edges[0]] + edges[1..];
    }
  }

  function KillsOf(kills: seq<Kill>, x: Node): set<Var> {
    if kills == [] then {}
    else (if kills[0].node == x then kills[0].vars else {}) + KillsOf(kills[1..], x)
  }

  /** The flow of a function without modifiers: the entry is 0, the exit and the revert node are last. */
  function FunctionFlow(body: Stmt, tracked: set<Var>): Flow {
    var exit := 1 + Size(body);
    var f := Build(body, 0, 1, Targets(None, None, exit, exit + 1, tracked));
    f.(edges := f.edges + [Edge(f.current, exit)])
  }

  function ExitOf(body: Stmt): Node {
    1 + Size(body)
  }

  function FunctionGraph(body: Stmt, tracked: set<Var>): Graph {
    var f := FunctionFlow(body, tracked);
    var n := Size(body) + 3;
    Graph(seq(n, x requires 0 <= x < n => TargetsOf(f.edges, x)), seq(n, x requires 0 <= x < n => KillsOf(f.kills, x)), 0, tracked)
  }

  lemma FunctionTidy(body: Stmt, tracked: set<Var>)
    ensures var f := FunctionFlow(body, tracked); Tidy(f.edges, f.loops, 0, 1, Size(body) + 2, {Size(body) + 2}, {})
  {
    hide Tidy, Build, Size;
    var exit := 1 + Size(body);
    var t := Targets(None, None, exit, exit + 1, tracked);
    var f := Build(body, 0, 1, t);
    BuildGood(body, 0, 1, t, {exit + 1} + {exit}, {});
    TidyLabel(f.edges, f.loops, [Edge(f.current, exit)], 0, 1, exit, {exit + 1}, {});
  }

  lemma FunctionWellFormed(body: Stmt, tracked: set<Var>)
    ensures WellFormed(FunctionGraph(body, tracked))
  {
    hide FunctionFlow, TargetsOf, KillsOf, Size;
    var g, f := FunctionGraph(body, tracked), FunctionFlow(body, tracked);
    FunctionTidy(body, tracked);
    forall x, i | 0 <= x < |g.exits| && 0 <= i < |g.exits[x]|
      ensures g.exits[x][i] < |g.exits|
    {
      TargetsAre(f.edges, x, g.exits[x][i]);
      assert Within(Edge(x, g.exits[x][i]), 0, 1, Size(body) + 2, {Size(body) + 2}, {});
    }
  }

  // ----- its loops have a single entry -----

  /** The end of the largest loop with this head. */
  function LastEnd(loops: seq<Loop>, h: Node): Node {
    if loops == [] then 0
    else
      var rest := LastEnd(loops[1..], h);
      if loops[0].head == h && loops[0].end > rest then loops[0].end else rest
  }

  lemma {:induction false} LastEndIs(loops: seq<Loop>, h: Node)
    ensures forall l | l in loops && l.head == h :: l.end <= LastEnd(loops, h)
    ensures LastEnd(loops, h) > 0 ==> Loop(h, LastEnd(loops, h)) in loops
  {
    if loops != [] {
      LastEndIs(loops[1..], h);
      assert loops == [loops[0]] + loops[1..];
    }
  }

  /** Edges of the graph, and where they may lead. */
  lemma EdgeFacts(body: Stmt, tracked: set<Var>, x: Node, y: Node)
    requires x < Size(body) + 3 && y in FunctionGraph(body, tracked).exits[x]
    ensures var f := FunctionFlow(body, tracked);
            && Edge(x, y) in f.edges && y >= 1
            && (y <= x ==> x < LastEnd(f.loops, y))
  {
    hide FunctionFlow, TargetsOf, KillsOf, Size;
    var f := FunctionFlow(body, tracked);
    FunctionTidy(body, tracked);
    TargetsAre(f.edges, x, y);
    assert Within(Edge(x, y), 0, 1, Size(body) + 2, {Size(body) + 2}, {});
    LastEndIs(f.loops, y);
    assert y <= x ==> InLoop(f.loops, y, x);
  }

  predicate InRegion(loops: seq<Loop>, h: Node, x: Node) {
    h <= x < LastEnd(loops, h)
  }

  /** Only the head of a loop can be reached from outside. */
  lemma RegionSealed(body: Stmt, tracked: set<Var>, h: Node, x: Node, y: Node)
    requires x < Size(body) + 3 && y in FunctionGraph(body, tracked).exits[x]
    requires InRegion(FunctionFlow(body, tracked).loops, h, y) && y != h
    ensures InRegion(FunctionFlow(body, tracked).loops, h, x)
  {
    hide FunctionFlow, TargetsOf, KillsOf, Size, LastEnd;
    var f := FunctionFlow(body, tracked);
    FunctionTidy(body, tracked);
    EdgeFacts(body, tracked, x, y);
    LastEndIs(f.loops, h);
    assert Sealed(Loop(h, LastEnd(f.loops, h)), f.edges);
    assert Edge(x, y).target == y;
  }

  /** Every path into a loop goes through its head. */
  lemma {:induction false} HeadOnPath(body: Stmt, tracked: set<Var>, h: Node, p: seq<Node>, k: nat)
    requires WellFormed(FunctionGraph(body, tracked)) && IsPath(FunctionGraph(body, tracked), p) && h >= 1
    requires k < |p| && InRegion(FunctionFlow(body, tracked).loops, h, p[k])
    ensures h in p
  {
    hide FunctionFlow, FunctionGraph, Size, LastEnd;
    if p[k] != h {
      if k > 0 {
        assert p[k - 1 + 1] in FunctionGraph(body, tracked).exits[p[k - 1]];
        FunctionNodes(body, tracked);
        RegionSealed(body, tracked, h, p[k - 1], p[k]);
        HeadOnPath(body, tracked, h, p, k - 1);
      } else {
        FunctionNodes(body, tracked);
      }
    }
  }

  lemma FunctionNodes(body: Stmt, tracked: set<Var>)
    ensures |FunctionGraph(body, tracked).exits| == Size(body) + 3 && FunctionGraph(body, tracked).entry == 0
  {
    hide FunctionFlow, TargetsOf, KillsOf, Size;
  }

  lemma HeadDominates(body: Stmt, tracked: set<Var>, h: Node, y: Node)
    requires WellFormed(FunctionGraph(body, tracked)) && h >= 1 && InRegion(FunctionFlow(body, tracked).loops, h, y)
    ensures Dominates(FunctionGraph(body, tracked), h, y)
  {
    hide FunctionFlow, FunctionGraph;
    forall p | IsPath(FunctionGraph(body, tracked), p) && p[|p| - 1] == y
      ensures h in p
    {
      HeadOnPath(body, tracked, h, p, |p| - 1);
    }
  }

  lemma {:induction false} LeastIndex(c: seq<Node>) returns (i: nat)
    requires |c| > 0
    ensures i < |c| && forall j | 0 <= j < |c| :: c[i] <= c[j]
  {
    if |c| == 1 {
      i := 0;
    } else {
      i := LeastIndex(c[..|c| - 1]);
      if c[|c| - 1] < c[i] {
        i := |c| - 1;
      }
    }
  }

  /** Walking a cycle backwards one stays in the loop of its least node. */
  lemma {:induction false} CycleInRegion(body: Stmt, tracked: set<Var>, c: seq<Node>, h: Node, i: nat, j: nat)
    requires WellFormed(FunctionGraph(body, tracked)) && IsCycle(FunctionGraph(body, tracked), c)
    requires forall k | 0 <= k < |c| :: h <= c[k]
    requires j <= i < |c| && InRegion(FunctionFlow(body, tracked).loops, h, c[i])
    ensures InRegion(FunctionFlow(body, tracked).loops, h, c[j])
    decreases i - j
  {
    hide FunctionFlow, FunctionGraph, Size, LastEnd;
    if j < i {
      assert c[i - 1 + 1] in FunctionGraph(body, tracked).exits[c[i - 1]];
      FunctionNodes(body, tracked);
      if c[i] == h {
        EdgeFacts(body, tracked, c[i - 1], c[i]);
      } else {
        RegionSealed(body, tracked, h, c[i - 1], c[i]);
      }
      CycleInRegion(body, tracked, c, h, i - 1, j);
    }
  }

  /** Every cycle in the flow of a function can only be entered at one of its nodes. */
  lemma FunctionSingleEntry(body: Stmt, tracked: set<Var>)
    ensures WellFormed(FunctionGraph(body, tracked)) && SingleEntryLoops(FunctionGraph(body, tracked))
  {
    hide FunctionFlow, FunctionGraph, Dominates, IsCycle, LastEnd, Size;
    var g := FunctionGraph(body, tracked);
    FunctionWellFormed(body, tracked);
    forall c | IsCycle(g, c)
      ensures exists i :: EnteredAt(g, c, i)
    {
      var i := CycleEntry(body, tracked, c);
      assert EnteredAt(g, c, i);
    }
  }

  lemma CycleEntry(body: Stmt, tracked: set<Var>, c: seq<Node>) returns (i: nat)
    requires WellFormed(FunctionGraph(body, tracked)) && IsCycle(FunctionGraph(body, tracked), c)
    ensures EnteredAt(FunctionGraph(body, tracked), c, i)
  {
    hide FunctionFlow, FunctionGraph, Dominates, LastEnd, Size;
    var g, f := FunctionGraph(body, tracked), FunctionFlow(body, tracked);
    i := LeastIndex(c);
    var h, last := c[i], |c| - 1;
    FunctionNodes(body, tracked);
    var k := if i > 0 then i - 1 else last - 1;
    assert c[k + 1] in g.exits[c[k]] && c[k + 1] == h;
    EdgeFacts(body, tracked, c[k], h);
    assert InRegion(f.loops, h, c[k]);
    CycleInRegion(body, tracked, c, h, k, 0);
    forall j | 0 <= j < |c|
      ensures Dominates(g, h, c[j])
    {
      CycleInRegion(body, tracked, c, h, last, j);
      HeadDominates(body, tracked, h, c[j]);
    }
  }

  /** On the flow of every function, the search for unassigned return variables comes to an end. */
  lemma FunctionsEnd(body: Stmt, tracked: set<Var>)
    ensures WellFormed(FunctionGraph(body, tracked)) && Ends(FunctionGraph(body, tracked)) && Calm(FunctionGraph(body, tracked))
  {
    hide FunctionGraph, SingleEntryLoops, Ends, Calm;
    FunctionSingleEntry(body, tracked);
    SingleEntryLoopsEnd(FunctionGraph(body, tracked));
    SingleEntryCalm(FunctionGraph(body, tracked));
  }
}
