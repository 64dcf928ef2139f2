/** Depth-first cycle detection (libdevcore/Algorithms.h:31-78). The visitor is the one all callers
    use: it runs the detector on every successor and stops as soon as one of them leads to a cycle. */
module CycleDetection {
  import opened Wrappers

  type Vertex = nat

  predicate IsGraph(succ: seq<seq<Vertex>>) {
    forall v, i | 0 <= v < |succ| && 0 <= i < |succ[v]| :: succ[v][i] < |succ|
  }

  ghost predicate IsWalk(succ: seq<seq<Vertex>>, p: seq<Vertex>) {
    && (forall i | 0 <= i < |p| :: p[i] < |succ|)
    && (forall i | 0 <= i < |p| - 1 :: p[i + 1] in succ[p[i]])
  }

  /** A walk from v that comes back to one of its vertices. */
  ghost predicate Lasso(succ: seq<seq<Vertex>>, v: Vertex, p: seq<Vertex>) {
    IsWalk(succ, p) && |p| >= 2 && p[0] == v && p[|p| - 1] in p[..|p| - 1]
  }

  /** A cycle can be reached from v. */
  ghost predicate ReachesCycle(succ: seq<seq<Vertex>>, v: Vertex) {
    exists p :: Lasso(succ, v, p)
  }

  lemma CycleBehind(succ: seq<seq<Vertex>>, v: Vertex, s: Vertex)
    requires v < |succ| && s in succ[v] && ReachesCycle(succ, s)
    ensures ReachesCycle(succ, v)
  {
    var p :| Lasso(succ, s, p);
    var q := [v] + p;
    forall i | 0 <= i < |q| - 1
      ensures q[i + 1] in succ[q[i]]
    {
      if i > 0 {
        assert p[i - 1 + 1] in succ[p[i - 1]];
      }
    }
    assert q[..|q| - 1] == [v] + p[..|p| - 1];
    assert Lasso(succ, v, q);
  }

  /** Vertices that are done: they lead only to each other, and not to a cycle. */
  ghost predicate Clean(succ: seq<seq<Vertex>>, done: set<Vertex>) {
    Closed(succ, done) && forall v | v in done :: !ReachesCycle(succ, v)
  }

  predicate Closed(succ: seq<seq<Vertex>>, done: set<Vertex>) {
    forall v | v in done :: v < |succ| && forall i | 0 <= i < |succ[v]| :: succ[v][i] in done
  }

  lemma {:induction false} StaysInside(succ: seq<seq<Vertex>>, done: set<Vertex>, p: seq<Vertex>, k: nat)
    requires Closed(succ, done) && IsWalk(succ, p) && |p| > 0 && p[0] in done && k < |p|
    ensures p[k] in done
  {
    if k > 0 {
      StaysInside(succ, done, p, k - 1);
      assert p[k - 1 + 1] in succ[p[k - 1]];
    }
  }

  /** A vertex all of whose successors are done is done too. */
  lemma OneMore(succ: seq<seq<Vertex>>, done: set<Vertex>, v: Vertex)
    requires Clean(succ, done) && v < |succ| && v !in done
    requires forall i | 0 <= i < |succ[v]| :: succ[v][i] in done
    ensures Clean(succ, done + {v})
  {
    hide ReachesCycle;
    if ReachesCycle(succ, v) {
      CycleAhead(succ, done, v);
    }
  }

  /** A cycle reached from outside can be reached from a successor. */
  lemma CycleAhead(succ: seq<seq<Vertex>>, done: set<Vertex>, v: Vertex)
    requires Closed(succ, done) && v < |succ| && v !in done && ReachesCycle(succ, v)
    requires forall i | 0 <= i < |succ[v]| :: succ[v][i] in done
    ensures exists s :: s in done && ReachesCycle(succ, s)
  {
    var p :| Lasso(succ, v, p);
    var q := p[1..];
    hide Closed;
    assert p[0 + 1] in succ[p[0]];
    forall i | 0 <= i < |q| - 1
      ensures q[i + 1] in succ[q[i]]
    {
      assert p[i + 1 + 1] in succ[p[i + 1]];
    }
    StaysInside(succ, done, q, |q| - 1);
    var i :| 0 <= i < |p| - 1 && p[i] == p[|p| - 1];
    assert q[i - 1] == q[|q| - 1] && q[..|q| - 1][i - 1] == q[|q| - 1];
    assert Lasso(succ, q[0], q);
  }

  /** A vertex met again on the current path lies on a cycle. */
  lemma ClosesCycle(succ: seq<seq<Vertex>>, path: seq<Vertex>, v: Vertex)
    requires IsWalk(succ, path) && v in path && v in succ[path[|path| - 1]]
    ensures ReachesCycle(succ, v)
  {
    var i :| 0 <= i < |path| && path[i] == v;
    var p := path[i..] + [v];
    forall j | 0 <= j < |p| - 1
      ensures p[j + 1] in succ[p[j]]
    {
      if j < |p| - 2 {
        assert path[i + j + 1] in succ[path[i + j]];
      }
    }
    assert p[..|p| - 1] == path[i..] && path[i..][0] == v;
    assert Lasso(succ, v, p);
  }

  function Members(path: seq<Vertex>): set<Vertex> {
    set i | 0 <= i < |path| :: path[i]
  }

  /** The vertices that have not been entered. */
  function Unseen(succ: seq<seq<Vertex>>, processing: set<Vertex>, processed: set<Vertex>): set<Vertex> {
    set v: Vertex | v < |succ| && v !in processing && v !in processed
  }

  lemma UnseenShrinks(succ: seq<seq<Vertex>>, processing: set<Vertex>, processed: set<Vertex>, v: Vertex)
    requires v < |succ| && v !in processing && v !in processed
    ensures |Unseen(succ, processing + {v}, processed)| < |Unseen(succ, processing, processed)|
  {
    var a, b := Unseen(succ, processing + {v}, processed), Unseen(succ, processing, processed);
    assert b == a + {v} && v !in a;
  }

  lemma UnseenMonotone(succ: seq<seq<Vertex>>, processing: set<Vertex>, processed: set<Vertex>, more: set<Vertex>)
    requires processed <= more
    ensures |Unseen(succ, processing, more)| <= |Unseen(succ, processing, processed)|
  {
    var a, b := Unseen(succ, processing, more), Unseen(succ, processing, processed);
    assert b == a + (b - a);
  }

  /** The vertices being processed form a walk. */
  ghost predicate OnPath(succ: seq<seq<Vertex>>, path: seq<Vertex>, processing: set<Vertex>, depth: nat) {
    IsWalk(succ, path) && depth == |path| && processing == Members(path)
  }

  lemma Enter(succ: seq<seq<Vertex>>, path: seq<Vertex>, processing: set<Vertex>, depth: nat, v: Vertex)
    requires OnPath(succ, path, processing, depth) && v < |succ| && (path != [] ==> v in succ[path[|path| - 1]])
    ensures OnPath(succ, path + [v], processing + {v}, depth + 1)
    ensures v !in processing ==> (processing + {v}) - {v} == processing
    ensures (path + [v])[..|path|] == path
  {
    var q := path + [v];
    forall i | 0 <= i < |q| - 1
      ensures q[i + 1] in succ[q[i]]
    {
      assert i < |path| - 1 ==> path[i + 1] in succ[path[i]];
    }
    assert Members(q) == Members(path) + {v} by {
      assert q[|path|] == v;
      assert forall i | 0 <= i < |path| :: q[i] == path[i];
    }
  }

  class CycleDetector {
    const succ: seq<seq<Vertex>>
    var processing: set<Vertex>
    var processed: set<Vertex>
    var depth: nat
    var firstCycleVertex: Option<Vertex>
    /** The vertices being processed, in the order in which they were entered. */
    ghost var path: seq<Vertex>

    ghost predicate Valid()
      reads this
    {
      && IsGraph(succ) && OnPath(succ, path, processing, depth)
      && (firstCycleVertex.None? ==> Clean(succ, processed) && processing !! processed)
    }

    constructor (succ: seq<seq<Vertex>>)
      requires IsGraph(succ)
      ensures Valid() && this.succ == succ && path == [] && firstCycleVertex.None?
    {
      this.succ := succ;
      processing, processed, depth, firstCycleVertex, path := {}, {}, 0, None, [];
    }

    /** Looks for a cycle that can be reached from v, which is the first vertex or a successor of the
        one being processed. Once a cycle has been found, the answer stays. */
    method Run(v: Vertex) returns (r: Option<Vertex>)
      requires Valid() && v < |succ|
      requires path != [] ==> v in succ[path[|path| - 1]]
      modifies this
      ensures Valid() && path == old(path) && processing == old(processing) && processed >= old(processed)
      ensures r == firstCycleVertex && depth == old(depth)
      ensures old(firstCycleVertex).Some? ==> r == old(firstCycleVertex)
      ensures r.None? ==> v in processed
      ensures old(firstCycleVertex).None? && r.Some? ==>
                && ReachesCycle(succ, v)
                && (|path| == 1 ==> r.value == v)
                && (|path| == 0 ==> r.value in succ[v] && ReachesCycle(succ, r.value))
      decreases |Unseen(succ, processing, processed)|, 0
    {
      hide OnPath, Clean, ReachesCycle, Unseen;
      if firstCycleVertex.Some? {
        return firstCycleVertex;
      }
      if v in processed {
        return None;
      }
      if v in processing {
        ClosesPath(succ, path, processing, depth, v);
        firstCycleVertex := Some(v);
        return firstCycleVertex;
      }
      Enter(succ, path, processing, depth, v);
      UnseenShrinks(succ, processing, processed, v);
      processing := processing + {v};
      depth := depth + 1;
      path := path + [v];
      Visit(v);
      depth := depth - 1;
      path := path[..|path| - 1];
      if firstCycleVertex.Some? && depth == 1 {
        firstCycleVertex := Some(v);
      }
      processing := processing - {v};
      if firstCycleVertex.None? {
        OneMore(succ, processed, v);
      }
      processed := processed + {v};
      r := firstCycleVertex;
    }

    /** Runs the detector on the successors until one of them leads to a cycle. */
    method Visit(v: Vertex)
      requires Valid() && path != [] && path[|path| - 1] == v && v < |succ| && firstCycleVertex.None?
      modifies this
      ensures Valid() && path == old(path) && processing == old(processing) && processed >= old(processed) && depth == old(depth)
      ensures firstCycleVertex.None? ==> forall i | 0 <= i < |succ[v]| :: succ[v][i] in processed
      ensures firstCycleVertex.Some? ==>
                && ReachesCycle(succ, v)
                && (|path| == 1 ==> firstCycleVertex.value in succ[v] && ReachesCycle(succ, firstCycleVertex.value))
      decreases |Unseen(succ, processing, processed)|, 1
    {
      hide OnPath, Clean, ReachesCycle, Unseen;
      var i := 0;
      while i < |succ[v]|
        invariant 0 <= i <= |succ[v]| && Valid() && path == old(path) && processing == old(processing) && depth == old(depth)
        invariant firstCycleVertex.None? && processed >= old(processed)
        invariant forall j | 0 <= j < i :: succ[v][j] in processed
      {
        UnseenMonotone(succ, processing, old(processed), processed);
        var hit := Run(succ[v][i]);
        if hit.Some? {
          CycleBehind(succ, v, succ[v][i]);
          return;
        }
        i := i + 1;
      }
    }
  }

  lemma ClosesPath(succ: seq<seq<Vertex>>, path: seq<Vertex>, processing: set<Vertex>, depth: nat, v: Vertex)
    requires OnPath(succ, path, processing, depth) && v in processing && (path != [] ==> v in succ[path[|path| - 1]])
    ensures path != [] && ReachesCycle(succ, v)
    ensures |path| == 1 ==> path[0] == v
    ensures v in succ[path[|path| - 1]]
  {
    hide ReachesCycle;
    assert v in path;
    ClosesCycle(succ, path, v);
  }

  /** Whether a cycle can be reached from a vertex; if so, the successor through which. */
  method FindCycle(succ: seq<seq<Vertex>>, start: Vertex) returns (r: Option<Vertex>)
    requires IsGraph(succ) && start < |succ|
    ensures r.None? <==> !ReachesCycle(succ, start)
    ensures r.Some? ==> r.value in succ[start] && ReachesCycle(succ, r.value)
  {
    var detector := new CycleDetector(succ);
    r := detector.Run(start);
  }
}
