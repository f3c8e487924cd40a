/**
 * Directed graphs as edge sets. The wiring of a blueprint and the links between
 * resources are both such graphs; identifiers stand for UUIDs, of which only
 * equality and order matter.
 */
module Graphs {
  import opened Common

  type Node(==, !new)
  type Edges = set<(Node, Node)>

  /** A walk of |p| - 1 edges. */
  ghost predicate IsPath(edges: Edges, p: seq<Node>) {
    && p != []
    && forall i :: 0 <= i < |p| - 1 ==> (p[i], p[i + 1]) in edges
  }

  function Last(p: seq<Node>): Node
    requires p != []
  {
    p[|p| - 1]
  }

  ghost predicate Cyclic(edges: Edges) {
    exists p :: IsPath(edges, p) && |p| >= 2 && p[0] == Last(p)
  }

  /** Some walk of exactly n edges ends at v. */
  ghost predicate ReachedIn(edges: Edges, v: Node, n: nat) {
    exists p :: IsPath(edges, p) && Last(p) == v && |p| == n + 1
  }

  /** The longest walk that ends at v has n edges. */
  ghost predicate LongestPathTo(edges: Edges, v: Node, n: nat) {
    && ReachedIn(edges, v, n)
    && forall p :: IsPath(edges, p) && Last(p) == v ==> |p| <= n + 1
  }

  lemma JoinPaths(edges: Edges, p: seq<Node>, q: seq<Node>)
    requires IsPath(edges, p) && IsPath(edges, q) && Last(p) == q[0]
    ensures IsPath(edges, p + q[1..])
    ensures Last(p + q[1..]) == Last(q)
    ensures (p + q[1..])[0] == p[0]
  {
    var r := p + q[1..];
    forall i | 0 <= i < |r| - 1
      ensures (r[i], r[i + 1]) in edges
    {
      if i < |p| - 1 {
        assert (p[i], p[i + 1]) in edges;
      } else {
        assert (q[i - |p| + 1], q[i - |p| + 2]) in edges;
      }
    }
  }

  lemma ExtendPath(edges: Edges, p: seq<Node>, v: Node)
    requires IsPath(edges, p) && (Last(p), v) in edges
    ensures IsPath(edges, p + [v])
    ensures Last(p + [v]) == v
  {
  }

  lemma SubPath(edges: Edges, p: seq<Node>, i: nat, j: nat)
    requires IsPath(edges, p) && i < j <= |p|
    ensures IsPath(edges, p[i..j])
  {
    var q := p[i..j];
    forall k | 0 <= k < |q| - 1
      ensures (q[k], q[k + 1]) in edges
    {
      assert (p[i + k], p[i + k + 1]) in edges;
    }
  }

  /** A walk that visits a node twice contains a cycle. */
  lemma RepeatIsCycle(edges: Edges, p: seq<Node>, i: nat, j: nat)
    requires IsPath(edges, p) && i < j < |p| && p[i] == p[j]
    ensures Cyclic(edges)
  {
    SubPath(edges, p, i, j + 1);
    assert Last(p[i..j + 1]) == p[j];
    assert p[i..j + 1][0] == p[i];
  }

  /** If every walk into every node is bounded, there is no cycle: a cycle could be appended for ever. */
  lemma BoundedWalksAcyclic(edges: Edges)
    requires forall e :: e in edges ==> exists n: nat :: LongestPathTo(edges, e.1, n)
    ensures !Cyclic(edges)
  {
    if Cyclic(edges) {
      var c :| IsPath(edges, c) && |c| >= 2 && c[0] == Last(c);
      var v := Last(c);
      assert (c[|c| - 2], c[|c| - 2 + 1]) in edges;
      var n: nat :| LongestPathTo(edges, v, n);
      assert ReachedIn(edges, v, n);
      var p :| IsPath(edges, p) && Last(p) == v && |p| == n + 1;
      JoinPaths(edges, p, c);
      assert false;
    }
  }

  ghost predicate HasPredecessorIn(edges: Edges, nodes: set<Node>, v: Node) {
    exists u :: u in nodes && (u, v) in edges
  }

  /** When every node of a non-empty set has a predecessor in the set, walking backwards must repeat. */
  lemma PredecessorsForCycle(edges: Edges, nodes: set<Node>)
    requires nodes != {}
    requires forall v :: v in nodes ==> HasPredecessorIn(edges, nodes, v)
    ensures Cyclic(edges)
  {
    var v := AnyElement(nodes);
    var p := WalkBackwards(edges, nodes, v, |nodes|);
    var i, j := Pigeonhole(p, nodes);
    RepeatIsCycle(edges, p, i, j);
  }

  lemma {:induction false} WalkBackwards(edges: Edges, nodes: set<Node>, v: Node, n: nat) returns (p: seq<Node>)
    requires v in nodes
    requires forall w :: w in nodes ==> HasPredecessorIn(edges, nodes, w)
    ensures IsPath(edges, p) && |p| == n + 1 && Last(p) == v && Elements(p) <= nodes
    decreases n
  {
    if n == 0 {
      p := [v];
    } else {
      var u :| u in nodes && (u, v) in edges;
      var q := WalkBackwards(edges, nodes, u, n - 1);
      ExtendPath(edges, q, v);
      p := q + [v];
    }
  }

  lemma LongestPathUnique(edges: Edges, v: Node, m: nat, n: nat)
    requires LongestPathTo(edges, v, m) && LongestPathTo(edges, v, n)
    ensures m == n
  {
  }

  /** Following an edge lengthens the longest walk by at least one. */
  lemma LongestPathAscends(edges: Edges, u: Node, v: Node, m: nat, n: nat)
    requires (u, v) in edges
    requires LongestPathTo(edges, u, m) && LongestPathTo(edges, v, n)
    ensures m < n
  {
    var p :| IsPath(edges, p) && Last(p) == u && |p| == m + 1;
    ExtendPath(edges, p, v);
    assert |p + [v]| == m + 2;
  }

  /** The node before the end of a longest walk has a longest walk exactly one shorter. */
  lemma LongestPathPredecessor(edges: Edges, v: Node, n: nat) returns (u: Node)
    requires LongestPathTo(edges, v, n) && n > 0
    ensures (u, v) in edges && LongestPathTo(edges, u, n - 1)
  {
    var p :| IsPath(edges, p) && Last(p) == v && |p| == n + 1;
    u := p[n - 1];
    assert (p[n - 1], p[n - 1 + 1]) in edges;
    SubPath(edges, p, 0, n);
    assert Last(p[0..n]) == u;
    forall q | IsPath(edges, q) && Last(q) == u
      ensures |q| <= n
    {
      ExtendPath(edges, q, v);
      assert |q + [v]| <= n + 1;
    }
  }
}
