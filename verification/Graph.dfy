/** Directed graphs given by a set of (dependency, dependent) pairs. */
module Graph {
  import opened Prelude

  type Edges = set<(string, string)>

  ghost predicate Path(edges: Edges, p: seq<string>) {
    forall i :: 0 <= i < |p| - 1 ==> (p[i], p[i + 1]) in edges
  }

  ghost predicate Cycle(edges: Edges, p: seq<string>) {
    |p| >= 2 && p[0] == p[|p| - 1] && Path(edges, p)
  }

  ghost predicate Acyclic(edges: Edges) {
    forall p :: !Cycle(edges, p)
  }

  /** Numbering the nodes so that every edge goes up rules out cycles. */
  lemma RankedAcyclic(edges: Edges, rank: map<string, nat>)
    requires forall e <- edges :: e.0 in rank && e.1 in rank && rank[e.0] < rank[e.1]
    ensures Acyclic(edges)
  {
    forall p ensures !Cycle(edges, p) {
      if Cycle(edges, p) {
        PathClimbs(edges, rank, p);
      }
    }
  }

  lemma {:induction false} PathClimbs(edges: Edges, rank: map<string, nat>, p: seq<string>)
    requires forall e <- edges :: e.0 in rank && e.1 in rank && rank[e.0] < rank[e.1]
    requires |p| >= 2 && Path(edges, p)
    ensures p[0] in rank && p[|p| - 1] in rank && rank[p[0]] < rank[p[|p| - 1]]
  {
    assert (p[0], p[1]) in edges;
    if |p| > 2 {
      forall i | 0 <= i < |p| - 2 ensures (p[1..][i], p[1..][i + 1]) in edges {
        assert (p[i + 1], p[i + 2]) in edges;
      }
      PathClimbs(edges, rank, p[1..]);
    }
  }

  ghost predicate HasPredecessor(edges: Edges, nodes: set<string>, v: string) {
    exists u :: u in nodes && (u, v) in edges
  }

  /** Walking backwards inside a set in which every node has a predecessor. */
  lemma {:induction false} WalkBack(edges: Edges, nodes: set<string>, v: string, steps: nat) returns (p: seq<string>)
    requires v in nodes && forall w <- nodes :: HasPredecessor(edges, nodes, w)
    ensures |p| == steps + 1 && p[steps] == v && Path(edges, p) && Elements(p) <= nodes
    decreases steps
  {
    if steps == 0 {
      p := [v];
    } else {
      assert HasPredecessor(edges, nodes, v);
      var u :| u in nodes && (u, v) in edges;
      var q := WalkBack(edges, nodes, u, steps - 1);
      p := q + [v];
      forall i | 0 <= i < |p| - 1 ensures (p[i], p[i + 1]) in edges {
        assert i < |q| - 1 ==> (q[i], q[i + 1]) in edges;
      }
      assert Elements(p) == Elements(q) + {v};
    }
  }

  lemma RepeatGivesCycle(edges: Edges, p: seq<string>, i: nat, j: nat)
    requires Path(edges, p) && i < j < |p| && p[i] == p[j]
    ensures !Acyclic(edges)
  {
    var c := p[i..j + 1];
    forall k | 0 <= k < |c| - 1 ensures (c[k], c[k + 1]) in edges {
      assert (p[i + k], p[i + k + 1]) in edges;
    }
    assert Cycle(edges, c);
  }

  /** A finite non-empty set in which every node has a predecessor contains a cycle. */
  lemma PredecessorsCycle(edges: Edges, nodes: set<string>)
    requires nodes != {} && forall w <- nodes :: HasPredecessor(edges, nodes, w)
    ensures !Acyclic(edges)
  {
    hide Path, Acyclic, HasPredecessor;
    var v :| v in nodes;
    var p := WalkBack(edges, nodes, v, |nodes|);
    DistinctLength(p);
    SubsetSize(Elements(p), nodes);
    var i, j :| 0 <= i < j < |p| && p[i] == p[j];
    RepeatGivesCycle(edges, p, i, j);
  }
}
