/** Paths and cycles of a finite directed graph, given by its adjacency lists. */
module Graphs {
  type Graph<N> = map<N, seq<N>>

  predicate Edge<N(==)>(g: Graph<N>, x: N, y: N) {
    x in g && y in g[x]
  }

  /** A walk along the edges; a single node is a path. */
  ghost predicate Path<N>(g: Graph<N>, p: seq<N>) {
    |p| >= 1 && forall i :: 0 <= i < |p| - 1 ==> Edge(g, p[i], p[i + 1])
  }

  ghost predicate Connects<N>(g: Graph<N>, p: seq<N>, x: N, y: N) {
    Path(g, p) && p[0] == x && p[|p| - 1] == y
  }

  ghost predicate Reaches<N(!new)>(g: Graph<N>, x: N, y: N) {
    exists p :: Connects(g, p, x, y)
  }

  /** Some path of at least one edge comes back to x. */
  ghost predicate OnCycle<N(!new)>(g: Graph<N>, x: N) {
    exists p :: |p| >= 2 && Connects(g, p, x, x)
  }

  ghost predicate Acyclic<N(!new)>(g: Graph<N>) {
    forall x :: !OnCycle(g, x)
  }

  lemma Single<N(!new)>(g: Graph<N>, x: N)
    ensures Connects(g, [x], x, x)
    ensures Reaches(g, x, x)
  {
    var p := [x];
    assert Connects(g, p, x, x);
  }

  lemma Joined<N(!new)>(g: Graph<N>, p: seq<N>, q: seq<N>, x: N, y: N, z: N)
    requires Connects(g, p, x, y) && Connects(g, q, y, z)
    ensures Connects(g, p + q[1..], x, z) && |p + q[1..]| == |p| + |q| - 1
    ensures Reaches(g, x, z)
  {
    var r := p + q[1..];
    forall i | 0 <= i < |r| - 1 ensures Edge(g, r[i], r[i + 1]) {
      if i >= |p| - 1 {
        assert r[i + 1] == q[i + 2 - |p|];
        assert r[i] == q[i + 1 - |p|];
      }
    }
    assert Connects(g, r, x, z);
  }

  lemma EdgeReaches<N(!new)>(g: Graph<N>, x: N, y: N)
    requires Edge(g, x, y)
    ensures Connects(g, [x, y], x, y)
    ensures Reaches(g, x, y)
  {
    var p := [x, y];
    assert Connects(g, p, x, y);
  }

  lemma ReachesTransitive<N(!new)>(g: Graph<N>, x: N, y: N, z: N)
    requires Reaches(g, x, y) && Reaches(g, y, z)
    ensures Reaches(g, x, z)
  {
    var p :| Connects(g, p, x, y);
    var q :| Connects(g, q, y, z);
    Joined(g, p, q, x, y, z);
  }

  lemma CycleByEdge<N(!new)>(g: Graph<N>, x: N, y: N)
    requires Edge(g, x, y) && Reaches(g, y, x)
    ensures OnCycle(g, x)
  {
    var q :| Connects(g, q, y, x);
    EdgeReaches(g, x, y);
    Joined(g, [x, y], q, x, y, x);
  }

  /** A path leaves its first node by an edge, or stays there. */
  lemma FirstEdge<N(!new)>(g: Graph<N>, p: seq<N>, x: N, z: N)
    requires Connects(g, p, x, z) && |p| >= 2
    ensures Edge(g, x, p[1]) && Connects(g, p[1..], p[1], z)
    ensures Reaches(g, p[1], z)
  {
    var q := p[1..];
    forall i | 0 <= i < |q| - 1 ensures Edge(g, q[i], q[i + 1]) {
      assert Edge(g, p[i + 1], p[i + 2]);
    }
  }

  lemma SubPath<N(!new)>(g: Graph<N>, p: seq<N>, i: nat, j: nat)
    requires Path(g, p) && i <= j < |p|
    ensures Connects(g, p[i..j + 1], p[i], p[j])
    ensures Reaches(g, p[i], p[j])
  {
    var q := p[i..j + 1];
    forall k | 0 <= k < |q| - 1 ensures Edge(g, q[k], q[k + 1]) {
      assert Edge(g, p[i + k], p[i + k + 1]);
    }
    assert Connects(g, q, p[i], p[j]);
  }

  /** A set closed under edges holds every node reachable from it. */
  lemma {:induction false} ClosedReaches<N(!new)>(g: Graph<N>, closed: set<N>, p: seq<N>, x: N, z: N)
    requires forall u, v :: u in closed && Edge(g, u, v) ==> v in closed
    requires x in closed && Connects(g, p, x, z)
    ensures z in closed
    decreases |p|
  {
    if |p| >= 2 {
      FirstEdge(g, p, x, z);
      ClosedReaches(g, closed, p[1..], p[1], z);
    }
  }

  /** A rank that falls along every edge rules out cycles. */
  lemma {:induction false} RankFalls<N(!new)>(g: Graph<N>, rank: N -> int, p: seq<N>)
    requires Path(g, p)
    requires forall u, v :: Edge(g, u, v) ==> rank(v) < rank(u)
    ensures rank(p[|p| - 1]) <= rank(p[0]) - (|p| - 1)
    decreases |p|
  {
    if |p| >= 2 {
      FirstEdge(g, p, p[0], p[|p| - 1]);
      assert p[1..][|p| - 2] == p[|p| - 1];
      RankFalls(g, rank, p[1..]);
    }
  }

  lemma RankedIsAcyclic<N(!new)>(g: Graph<N>, rank: N -> int)
    requires forall u, v :: Edge(g, u, v) ==> rank(v) < rank(u)
    ensures Acyclic(g)
  {
    forall x ensures !OnCycle(g, x) {
      if OnCycle(g, x) {
        var p :| |p| >= 2 && Connects(g, p, x, x);
        RankFalls(g, rank, p);
      }
    }
  }

  lemma CycleHasEdge<N(!new)>(g: Graph<N>, x: N) returns (y: N)
    requires OnCycle(g, x)
    ensures Edge(g, x, y)
  {
    var p :| |p| >= 2 && Connects(g, p, x, x);
    FirstEdge(g, p, x, x);
    y := p[1];
  }

  /** A map that keeps edges keeps cycles. */
  lemma CycleImage<N(!new), M(!new)>(g: Graph<N>, h: Graph<M>, f: N -> M, x: N)
    requires forall a, b :: Edge(g, a, b) ==> Edge(h, f(a), f(b))
    requires OnCycle(g, x)
    ensures OnCycle(h, f(x))
  {
    var p :| |p| >= 2 && Connects(g, p, x, x);
    var q := seq(|p|, k requires 0 <= k < |p| => f(p[k]));
    forall k | 0 <= k < |q| - 1 ensures Edge(h, q[k], q[k + 1]) {
      assert Edge(g, p[k], p[k + 1]);
    }
    assert Connects(h, q, f(x), f(x));
  }
}
