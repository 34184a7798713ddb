/**
 Directed graphs as the two linters see them: a finite map from a node to the
 set of its targets. A node without an entry has no outgoing edges, and a target
 need not have an entry of its own.
 */
module Graph {

  type Digraph<N> = map<N, set<N>>

  function Succ<N>(g: Digraph<N>, x: N): set<N> {
    if x in g then g[x] else {}
  }

  ghost predicate IsWalk<N>(g: Digraph<N>, x: N, y: N, p: seq<N>) {
    && |p| > 0 && p[0] == x && p[|p| - 1] == y
    && forall i :: 0 <= i < |p| - 1 ==> p[i + 1] in Succ(g, p[i])
  }

  /** y can be reached from x by zero or more edges. */
  ghost predicate Reaches<N(!new)>(g: Digraph<N>, x: N, y: N) {
    exists p :: IsWalk(g, x, y, p)
  }

  /** No edge leaves s. */
  ghost predicate Closed<N>(g: Digraph<N>, s: set<N>) {
    forall x :: x in s ==> Succ(g, x) <= s
  }

  /** A closed walk with at least one edge exists nowhere. */
  ghost predicate Acyclic<N(!new)>(g: Digraph<N>) {
    forall x, y :: y in Succ(g, x) ==> !Reaches(g, y, x)
  }

  lemma ReachesSelf<N(!new)>(g: Digraph<N>, x: N)
    ensures Reaches(g, x, x)
  {
    assert IsWalk(g, x, x, [x]);
  }

  lemma ReachesEdge<N(!new)>(g: Digraph<N>, x: N, y: N)
    requires y in Succ(g, x)
    ensures Reaches(g, x, y)
  {
    assert IsWalk(g, x, y, [x, y]);
  }

  lemma ReachesTrans<N(!new)>(g: Digraph<N>, x: N, y: N, z: N)
    requires Reaches(g, x, y) && Reaches(g, y, z)
    ensures Reaches(g, x, z)
  {
    var p :| IsWalk(g, x, y, p);
    var q :| IsWalk(g, y, z, q);
    var r := p + q[1..];
    forall i | 0 <= i < |r| - 1
      ensures r[i + 1] in Succ(g, r[i])
    {
      if i >= |p| - 1 {
        assert r[i] == q[i - (|p| - 1)] && r[i + 1] == q[i - (|p| - 1) + 1];
      }
    }
    assert IsWalk(g, x, z, r);
  }

  /** Reachability never leaves a closed set. */
  lemma ClosedKeeps<N(!new)>(g: Digraph<N>, s: set<N>, x: N, y: N)
    requires Closed(g, s) && x in s && Reaches(g, x, y)
    ensures y in s
  {
    var p :| IsWalk(g, x, y, p);
    WalkStays(g, s, p, |p| - 1);
  }

  lemma {:induction false} WalkStays<N(!new)>(g: Digraph<N>, s: set<N>, p: seq<N>, i: nat)
    requires Closed(g, s) && i < |p| && p[0] in s
    requires forall k :: 0 <= k < |p| - 1 ==> p[k + 1] in Succ(g, p[k])
    ensures p[i] in s
  {
    if i == 0 {
    } else {
      WalkStays(g, s, p, i - 1);
      assert p[i - 1 + 1] in Succ(g, p[i - 1]);
    }
  }

  // ------------------------------------------------------------------
  // The same in terms of the map alone
  // ------------------------------------------------------------------

  /** Every node of p but the last has an entry, and it holds the next node. */
  ghost predicate IsPath<N>(g: Digraph<N>, p: seq<N>) {
    |p| > 0 && forall i :: 0 <= i < |p| - 1 ==> p[i] in g && p[i + 1] in g[p[i]]
  }

  /** A path that comes back to its start, by one edge or more. */
  ghost predicate IsCycle<N>(g: Digraph<N>, p: seq<N>) {
    IsPath(g, p) && |p| > 1 && p[0] == p[|p| - 1]
  }

  lemma PathIsWalk<N>(g: Digraph<N>, p: seq<N>)
    requires |p| > 0
    ensures IsPath(g, p) <==> IsWalk(g, p[0], p[|p| - 1], p)
  {
    if IsWalk(g, p[0], p[|p| - 1], p) {
      forall i | 0 <= i < |p| - 1
        ensures p[i] in g && p[i + 1] in g[p[i]]
      {
        assert p[i + 1] in Succ(g, p[i]);
      }
    }
  }

  lemma ReachesIsPath<N(!new)>(g: Digraph<N>, x: N, y: N)
    ensures Reaches(g, x, y) <==> exists p :: IsPath(g, p) && p[0] == x && p[|p| - 1] == y
  {
    if Reaches(g, x, y) {
      var p :| IsWalk(g, x, y, p);
      PathIsWalk(g, p);
    }
    if p :| IsPath(g, p) && p[0] == x && p[|p| - 1] == y {
      PathIsWalk(g, p);
    }
  }

  lemma CycleFrom<N(!new)>(g: Digraph<N>, x: N, y: N) returns (cycle: seq<N>)
    requires y in Succ(g, x) && Reaches(g, y, x)
    ensures IsCycle(g, cycle)
  {
    ReachesIsPath(g, y, x);
    var p :| IsPath(g, p) && p[0] == y && p[|p| - 1] == x;
    cycle := [x] + p;
    forall i | 0 <= i < |cycle| - 1
      ensures cycle[i] in g && cycle[i + 1] in g[cycle[i]]
    {
      if i > 0 {
        assert cycle[i] == p[i - 1] && cycle[i + 1] == p[i - 1 + 1];
      }
    }
  }

  lemma AcyclicIsNoCycle<N(!new)>(g: Digraph<N>)
    ensures Acyclic(g) <==> !exists p :: IsCycle(g, p)
  {
    if x, y :| y in Succ(g, x) && Reaches(g, y, x) {
      var cycle := CycleFrom(g, x, y);
    }
    if p :| IsCycle(g, p) {
      var rest := p[1..];
      forall i | 0 <= i < |rest| - 1
        ensures rest[i] in g && rest[i + 1] in g[rest[i]]
      {
        assert rest[i] == p[i + 1] && rest[i + 1] == p[i + 1 + 1];
      }
      ReachesIsPath(g, p[1], p[0]);
      assert IsPath(g, rest) && rest[0] == p[1] && rest[|rest| - 1] == p[0];
      assert p[0 + 1] in Succ(g, p[0]);
    }
  }
}
