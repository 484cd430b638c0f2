/** Blocker graphs: paths, cycles and longest paths, independent of any algorithm. */
module PlanGraph {
  import opened Collections

  /** Blocked issue id -> the ids that block it. A missing key has no blockers. */
  type Graph = map<int, seq<int>>

  function Blockers(g: Graph, n: int): seq<int> {
    if n in g then g[n] else []
  }

  /** A walk along blocker edges; a single node is a path of no edges. */
  ghost predicate IsPath(g: Graph, p: seq<int>) {
    |p| >= 1 && forall i :: 0 <= i < |p| - 1 ==> p[i + 1] in Blockers(g, p[i])
  }

  ghost predicate PathFrom(g: Graph, p: seq<int>, a: int) {
    IsPath(g, p) && p[0] == a
  }

  /** `b` is reached from `a` by at least one blocker edge. */
  ghost predicate Reaches(g: Graph, a: int, b: int) {
    exists p :: PathFrom(g, p, a) && |p| >= 2 && p[|p| - 1] == b
  }

  /** Some node of `nodes` reaches itself. */
  ghost predicate Cyclic(g: Graph, nodes: set<int>) {
    exists n :: n in nodes && Reaches(g, n, n)
  }

  /** Nothing reached from `n`, `n` included, lies on a cycle. */
  ghost predicate AcyclicFrom(g: Graph, n: int) {
    !Reaches(g, n, n) && forall m :: Reaches(g, n, m) ==> !Reaches(g, m, m)
  }

  /** Every node has its blockers inside `nodes`. */
  ghost predicate Closed(g: Graph, nodes: set<int>) {
    forall n, b :: n in nodes && b in Blockers(g, n) ==> b in nodes
  }

  lemma EdgeReaches(g: Graph, a: int, b: int)
    requires b in Blockers(g, a)
    ensures Reaches(g, a, b)
  {
    assert PathFrom(g, [a, b], a);
  }

  lemma ReachesTrans(g: Graph, a: int, b: int, c: int)
    requires Reaches(g, a, b) && Reaches(g, b, c)
    ensures Reaches(g, a, c)
  {
    var p :| PathFrom(g, p, a) && |p| >= 2 && p[|p| - 1] == b;
    var q :| PathFrom(g, q, b) && |q| >= 2 && q[|q| - 1] == c;
    assert PathFrom(g, p + q[1..], a);
  }

  /** The first edge of a walk. */
  lemma ReachesFirst(g: Graph, a: int, c: int) returns (b: int)
    requires Reaches(g, a, c)
    ensures b in Blockers(g, a) && (b == c || Reaches(g, b, c))
  {
    var p :| PathFrom(g, p, a) && |p| >= 2 && p[|p| - 1] == c;
    b := p[1];
    if |p| > 2 {
      assert PathFrom(g, p[1..], b);
    }
  }

  /** A walk that starts in a closed set stays there. */
  lemma {:induction false} ClosedPath(g: Graph, nodes: set<int>, p: seq<int>)
    requires Closed(g, nodes) && IsPath(g, p) && p[0] in nodes
    ensures forall i :: 0 <= i < |p| ==> p[i] in nodes
  {
    if |p| > 1 {
      var q := p[..|p| - 1];
      ClosedPath(g, nodes, q);
      var i := |p| - 2;
      assert q[i] in nodes && p[i + 1] in Blockers(g, q[i]);
      assert forall j :: 0 <= j < |q| ==> p[j] == q[j];
    }
  }

  lemma ClosedReaches(g: Graph, nodes: set<int>, a: int, b: int)
    requires Closed(g, nodes) && a in nodes && Reaches(g, a, b)
    ensures b in nodes
  {
    var p :| PathFrom(g, p, a) && |p| >= 2 && p[|p| - 1] == b;
    ClosedPath(g, nodes, p);
  }

  lemma AcyclicFromBlocker(g: Graph, n: int, b: int)
    requires AcyclicFrom(g, n) && b in Blockers(g, n)
    ensures AcyclicFrom(g, b)
  {
    EdgeReaches(g, n, b);
    forall m | Reaches(g, b, m) ensures !Reaches(g, m, m) {
      ReachesTrans(g, n, b, m);
    }
  }

  lemma AcyclicNode(g: Graph, nodes: set<int>, n: int)
    requires Closed(g, nodes) && !Cyclic(g, nodes) && n in nodes
    ensures AcyclicFrom(g, n)
  {
    forall m | Reaches(g, n, m) ensures !Reaches(g, m, m) {
      ClosedReaches(g, nodes, n, m);
    }
  }

  /** A path out of a node that sees no cycle never revisits a node. */
  lemma PathIsDistinct(g: Graph, p: seq<int>)
    requires IsPath(g, p) && AcyclicFrom(g, p[0])
    ensures Distinct(p)
  {
    forall i, j | 0 <= i < j < |p| ensures p[i] != p[j] {
      if i > 0 {
        assert PathFrom(g, p[..i + 1], p[0]);
      }
      assert !Reaches(g, p[i], p[i]);
      assert PathFrom(g, p[i..j + 1], p[i]);
    }
  }

  // ----- Longest paths ------------------------------------------------------

  /** `k` is the number of edges of a longest blocker path out of `n`. */
  ghost predicate IsLongest(g: Graph, n: int, k: int) {
    && (exists p :: PathFrom(g, p, n) && |p| == k + 1)
    && (forall p :: PathFrom(g, p, n) ==> |p| <= k + 1)
  }

  lemma LongestUnique(g: Graph, n: int, j: int, k: int)
    requires IsLongest(g, n, j) && IsLongest(g, n, k)
    ensures j == k
  {
    var p :| PathFrom(g, p, n) && |p| == j + 1;
    var q :| PathFrom(g, q, n) && |q| == k + 1;
  }

  /** The rank equation: one more than the deepest blocker, or 0 without blockers. */
  lemma LongestStep(g: Graph, n: int, k: nat, depth: int -> int)
    requires forall b :: b in Blockers(g, n) ==> IsLongest(g, b, depth(b)) && depth(b) + 1 <= k
    requires k == 0 || exists b :: b in Blockers(g, n) && k == depth(b) + 1
    ensures IsLongest(g, n, k)
  {
    if k == 0 {
      assert PathFrom(g, [n], n);
    } else {
      var b :| b in Blockers(g, n) && k == depth(b) + 1;
      var q :| PathFrom(g, q, b) && |q| == depth(b) + 1;
      assert PathFrom(g, [n] + q, n);
    }
    forall p | PathFrom(g, p, n) ensures |p| <= k + 1 {
      if |p| > 1 {
        assert PathFrom(g, p[1..], p[1]);
      }
    }
  }

  /** Inside a closed set without cycles a longest path has fewer edges than nodes. */
  lemma LongestBound(g: Graph, nodes: set<int>, n: int, k: int)
    requires Closed(g, nodes) && !Cyclic(g, nodes) && n in nodes && IsLongest(g, n, k)
    ensures 0 <= k <= |nodes| - 1
  {
    var p :| PathFrom(g, p, n) && |p| == k + 1;
    AcyclicNode(g, nodes, n);
    PathIsDistinct(g, p);
    ClosedPath(g, nodes, p);
    Pigeonhole(p, nodes);
  }
}
