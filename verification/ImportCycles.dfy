/**
 The import-cycle linter: Tarjan's depth-first search for strongly connected
 components, and the verdict drawn from them
 (linting/python/imports/import_cycles.py).
 */
module ImportCycles {
  import opened Graph
  import opened Numbers

  /** The variables `visit` shares with its enclosing function, as one value. */
  datatype Dfs<N> = Dfs(
    index: nat,
    stack: seq<N>,
    onStack: set<N>,
    num: map<N, nat>,
    low: map<N, nat>,
    comps: seq<seq<N>>)

  // ------------------------------------------------------------------
  // What the result of the search means
  // ------------------------------------------------------------------

  predicate Distinct<N(==)>(s: seq<N>) {
    forall i, j :: 0 <= i < j < |s| ==> s[i] != s[j]
  }

  /** y lies in one of the first k components. */
  predicate InFirst<N(==)>(comps: seq<seq<N>>, k: nat, y: N)
    requires k <= |comps|
  {
    exists j :: 0 <= j < k && y in comps[j]
  }

  ghost predicate RootReaches<N(!new)>(g: Digraph<N>, roots: set<N>, x: N) {
    exists r :: r in roots && Reaches(g, r, x)
  }

  /** comps lists, once each and in reverse topological order, exactly the
      strongly connected components of the part of g reachable from roots. */
  ghost predicate IsSccList<N(!new)>(g: Digraph<N>, roots: set<N>, comps: seq<seq<N>>) {
    && (forall x :: InFirst(comps, |comps|, x) <==> RootReaches(g, roots, x))
    && (forall i :: 0 <= i < |comps| ==> comps[i] != [] && Distinct(comps[i]))
    && (forall i, j, x :: 0 <= i < j < |comps| && x in comps[i] ==> x !in comps[j])
    && (forall i, x, y :: 0 <= i < |comps| && x in comps[i] ==>
          (y in comps[i] <==> Reaches(g, x, y) && Reaches(g, y, x)))
    && (forall i, j, x, y :: 0 <= i < j < |comps| && x in comps[i] && y in comps[j] ==> !Reaches(g, x, y))
  }

  // ------------------------------------------------------------------
  // The invariant of the search
  // ------------------------------------------------------------------

  /** comps splits emitted into strongly connected parts, and an edge from one
      part leads only to itself or to an earlier part. */
  ghost predicate Listing<N(!new)>(g: Digraph<N>, comps: seq<seq<N>>, emitted: set<N>) {
    && (forall x :: x in emitted <==> InFirst(comps, |comps|, x))
    && (forall k :: 0 <= k < |comps| ==> comps[k] != [] && Distinct(comps[k]))
    && (forall k, l, x :: 0 <= k < l < |comps| && x in comps[k] ==> x !in comps[l])
    && (forall k, x, y :: 0 <= k < |comps| && x in comps[k] && y in comps[k] ==> Reaches(g, x, y))
    && (forall k, x, y :: 0 <= k < |comps| && x in comps[k] && y in Succ(g, x) ==> InFirst(comps, k + 1, y))
  }

  /** The stack, the on-stack set and the numbering agree. */
  ghost predicate GoodStack<N(!new)>(s: Dfs<N>) {
    && Distinct(s.stack)
    && (forall x :: x in s.onStack <==> x in s.stack)
    && s.low.Keys == s.num.Keys
    && s.onStack <= s.num.Keys
    && (forall x :: x in s.num ==> s.num[x] < s.index)
    && (forall i, j :: 0 <= i < j < |s.stack| ==> s.num[s.stack[i]] < s.num[s.stack[j]])
  }

  /** Every stacked node reaches all nodes above it. */
  ghost predicate ReachesUp<N(!new)>(g: Digraph<N>, stack: seq<N>) {
    forall i, j :: 0 <= i <= j < |stack| ==> Reaches(g, stack[i], stack[j])
  }

  /** stack[k] is still being visited and is reached from stack[i]. */
  ghost predicate Anchor<N(!new)>(g: Digraph<N>, stack: seq<N>, open: set<N>, i: nat, k: nat)
    requires i < |stack|
  {
    k <= i && stack[k] in open && Reaches(g, stack[i], stack[k])
  }

  ghost predicate Anchored<N(!new)>(g: Digraph<N>, stack: seq<N>, open: set<N>, i: nat)
    requires i < |stack|
  {
    exists k: nat :: Anchor(g, stack, open, i, k)
  }

  /** Every stacked node reaches some node at or below it whose visit is open. */
  ghost predicate ReachesDown<N(!new)>(g: Digraph<N>, stack: seq<N>, open: set<N>) {
    forall i: nat :: i < |stack| ==> Anchored(g, stack, open, i)
  }

  /** open holds the nodes whose visit has started and not returned. */
  ghost predicate Inv<N(!new)>(g: Digraph<N>, s: Dfs<N>, open: set<N>) {
    && GoodStack(s)
    && Listing(g, s.comps, s.num.Keys - s.onStack)
    && open <= s.onStack
    && (forall x :: x in s.num && x !in open ==> Succ(g, x) <= s.num.Keys)
    && ReachesUp(g, s.stack)
    && ReachesDown(g, s.stack, open)
  }

  /** From s to t nothing already numbered changes and the stack only grows. */
  ghost predicate Grows<N(!new)>(s: Dfs<N>, t: Dfs<N>) {
    && s.index <= t.index
    && s.num.Keys == s.low.Keys && t.num.Keys == t.low.Keys
    && s.num.Keys <= t.num.Keys
    && (forall x :: x in s.num ==> t.num[x] == s.num[x] && t.low[x] == s.low[x])
    && (forall x :: x in t.num && x !in s.num ==> s.index <= t.num[x])
    && s.stack <= t.stack
    && (forall x :: x in t.onStack && x in s.num ==> x in s.onStack)
  }

  /** Some stacked node reached from v carries the number low[v]. */
  ghost predicate LowWitness<N(!new)>(g: Digraph<N>, s: Dfs<N>, v: N)
    requires v in s.low
  {
    exists y :: y in s.onStack && y in s.num && s.num[y] == s.low[v] && Reaches(g, v, y)
  }

  /** The targets of x that have been looked at while v's loop has done the targets in done. */
  function Looked<N(==)>(g: Digraph<N>, x: N, v: N, done: set<N>): set<N> {
    if x == v then done else Succ(g, x)
  }

  /** bound is at most the number of every stacked target of the stack from position base up. */
  ghost predicate LowBound<N(!new)>(
      g: Digraph<N>, stack: seq<N>, num: map<N, nat>, onStack: set<N>, base: nat, v: N, done: set<N>, bound: nat)
  {
    forall i, b :: base <= i < |stack| && b in Looked(g, stack[i], v, done) && b in onStack && b in num ==>
      bound <= num[b]
  }

  /** The nodes numbered in between are reached from v. */
  ghost predicate NewReached<N(!new)>(g: Digraph<N>, before: set<N>, after: set<N>, v: N) {
    forall x :: x in after && x !in before ==> Reaches(g, v, x)
  }

  /** What one call of visit(v) promises. */
  ghost predicate Visited<N(!new)>(g: Digraph<N>, s: Dfs<N>, t: Dfs<N>, v: N) {
    && Grows(s, t)
    && v in t.num && t.num[v] == s.index
    && t.low[v] <= t.num[v]
    && (v !in t.onStack ==> t.stack == s.stack && t.low[v] == t.num[v])
    && (v in t.onStack ==> LowWitness(g, t, v))
    && LowBound(g, t.stack, t.num, t.onStack, |s.stack|, v, Succ(g, v), t.low[v])
    && NewReached(g, s.num.Keys, t.num.Keys, v)
  }

  /** What holds in visit(v), started in s, when the targets in done have been handled. */
  ghost predicate Visiting<N(!new)>(g: Digraph<N>, s: Dfs<N>, t: Dfs<N>, v: N, open: set<N>, done: set<N>) {
    && Inv(g, t, open + {v})
    && Grows(s, t)
    && v in t.num && t.num[v] == s.index
    && |s.stack| < |t.stack| && t.stack[|s.stack|] == v
    && t.low[v] <= t.num[v]
    && LowWitness(g, t, v)
    && LowBound(g, t.stack, t.num, t.onStack, |s.stack|, v, done, t.low[v])
    && done <= t.num.Keys
    && NewReached(g, s.num.Keys, t.num.Keys, v)
  }

  // ------------------------------------------------------------------
  // The steps of visit as functions
  // ------------------------------------------------------------------

  function Enter<N(==)>(s: Dfs<N>, v: N): Dfs<N> {
    Dfs(s.index + 1, s.stack + [v], s.onStack + {v}, s.num[v := s.index], s.low[v := s.index], s.comps)
  }

  function Lower<N(==)>(s: Dfs<N>, v: N, bound: nat): Dfs<N>
    requires v in s.low
  {
    s.(low := s.low[v := Min(s.low[v], bound)])
  }

  lemma EnterReaches<N(!new)>(g: Digraph<N>, stack: seq<N>, open: set<N>, v: N)
    requires ReachesUp(g, stack) && ReachesDown(g, stack, open)
    requires forall x :: x in open ==> Reaches(g, x, v)
    ensures ReachesUp(g, stack + [v]) && ReachesDown(g, stack + [v], open + {v})
  {
    var t := stack + [v];
    ReachesSelf(g, v);
    forall i: nat, j: nat | i <= j < |t|
      ensures Reaches(g, t[i], t[j])
    {
      if i < |stack| && j == |stack| {
        assert Anchored(g, stack, open, i);
        var k: nat :| Anchor(g, stack, open, i, k);
        ReachesTrans(g, stack[i], stack[k], v);
      }
    }
    forall i: nat | i < |t|
      ensures Anchored(g, t, open + {v}, i)
    {
      if i < |stack| {
        assert Anchored(g, stack, open, i);
        var k: nat :| Anchor(g, stack, open, i, k);
        assert Anchor(g, t, open + {v}, i, k);
      } else {
        assert Anchor(g, t, open + {v}, i, i);
      }
    }
  }

  lemma EnterInv<N(!new)>(g: Digraph<N>, s: Dfs<N>, v: N, open: set<N>)
    requires Inv(g, s, open) && v !in s.num
    requires forall x :: x in open ==> Reaches(g, x, v)
    ensures Inv(g, Enter(s, v), open + {v})
  {
    hide Listing, Reaches, Anchored, ReachesUp, ReachesDown;
    var t := Enter(s, v);
    EnterReaches(g, s.stack, open, v);
    assert t.num.Keys - t.onStack == s.num.Keys - s.onStack;
    assert GoodStack(t);
  }

  /** The loop of visit(v) starts with its invariant. */
  lemma EnterStarts<N(!new)>(g: Digraph<N>, s: Dfs<N>, v: N, open: set<N>)
    requires Inv(g, s, open) && v !in s.num
    requires forall x :: x in open ==> Reaches(g, x, v)
    ensures Visiting(g, s, Enter(s, v), v, open, {})
  {
    var t := Enter(s, v);
    hide Listing, Reaches, ReachesUp, ReachesDown;
    EnterInv(g, s, v, open);
    ReachesSelf(g, v);
    assert Grows(s, t);
    hide Inv, Grows, GoodStack;
    assert v in t.onStack && t.num[v] == t.low[v];
    assert LowWitness(g, t, v);
  }

  lemma LowerInv<N(!new)>(g: Digraph<N>, t: Dfs<N>, v: N, bound: nat, open: set<N>)
    requires Inv(g, t, open) && v in t.low
    ensures Inv(g, Lower(t, v, bound), open)
  {
    assert Lower(t, v, bound).low.Keys == t.low.Keys;
  }

  lemma LowerGrows<N(!new)>(s: Dfs<N>, t: Dfs<N>, v: N, bound: nat)
    requires Grows(s, t) && v in t.num && v !in s.num
    ensures Grows(s, Lower(t, v, bound))
  {
  }

  lemma StackedWitness<N(!new)>(g: Digraph<N>, t: Dfs<N>, v: N, w: N)
    requires GoodStack(t) && v in t.num && LowWitness(g, t, v) && w in Succ(g, v) && w in t.onStack
    ensures LowWitness(g, Lower(t, v, t.num[w]), v)
  {
    var u := Lower(t, v, t.num[w]);
    ReachesEdge(g, v, w);
    assert w in u.onStack && u.num[w] == t.num[w];
  }

  /** The branch for a target that is numbered and still on the stack. */
  lemma StackedTarget<N(!new)>(g: Digraph<N>, s: Dfs<N>, t: Dfs<N>, v: N, open: set<N>, done: set<N>, w: N)
    requires Visiting(g, s, t, v, open, done) && v !in s.num
    requires w in Succ(g, v) && w in t.onStack
    ensures w in t.num && Visiting(g, s, Lower(t, v, t.num[w]), v, open, done + {w})
  {
    hide Listing, Reaches, ReachesUp, ReachesDown, LowWitness, NewReached, Grows;
    LowerInv(g, t, v, t.num[w], open + {v});
    LowerGrows(s, t, v, t.num[w]);
    StackedWitness(g, t, v, w);
    hide Inv;
  }

  /** The branch for a target that is already emitted. */
  lemma EmittedTarget<N(!new)>(g: Digraph<N>, s: Dfs<N>, t: Dfs<N>, v: N, open: set<N>, done: set<N>, w: N)
    requires Visiting(g, s, t, v, open, done)
    requires w in t.num && w !in t.onStack
    ensures Visiting(g, s, t, v, open, done + {w})
  {
  }

  /** After a recursive visit of w, the low link of v is again a number on the stack that v reaches. */
  lemma FreshWitness<N(!new)>(g: Digraph<N>, t: Dfs<N>, t': Dfs<N>, v: N, w: N)
    requires GoodStack(t) && GoodStack(t') && v in t.num && t.low[v] <= t.num[v]
    requires LowWitness(g, t, v) && w in Succ(g, v) && Visited(g, t, t', w)
    ensures LowWitness(g, Lower(t', v, t'.low[w]), v)
  {
    var u := Lower(t', v, t'.low[w]);
    if t'.low[w] < t.low[v] {
      var z :| z in t'.onStack && z in t'.num && t'.num[z] == t'.low[w] && Reaches(g, w, z);
      ReachesEdge(g, v, w);
      ReachesTrans(g, v, w, z);
      assert u.num[z] == u.low[v];
    } else {
      var y :| y in t.onStack && y in t.num && t.num[y] == t.low[v] && Reaches(g, v, y);
      assert y in t'.stack;
      assert u.num[y] == u.low[v];
    }
  }

  /** The bound for what was on the stack before the visit of w. */
  lemma OldBound<N(!new)>(
      g: Digraph<N>, base: nat, t: Dfs<N>, t': Dfs<N>, v: N, done: set<N>, w: N, i: nat, b: N)
    requires Grows(t, t') && v in t.num && t.low[v] <= t.num[v] < t.index
    requires LowBound(g, t.stack, t.num, t.onStack, base, v, done, t.low[v]) && w !in t.num
    requires base <= i < |t.stack| && b in Looked(g, t.stack[i], v, done + {w}) && b in t'.onStack && b in t'.num
    ensures t.low[v] <= t'.num[b]
  {
    if b in t.num {
      assert b in Looked(g, t.stack[i], v, done);
    }
  }

  /** The bound for what the visit of w has put on the stack. */
  lemma NewBound<N(!new)>(
      g: Digraph<N>, base: nat, t': Dfs<N>, v: N, done: set<N>, w: N, bound: nat, i: nat, b: N)
    requires LowBound(g, t'.stack, t'.num, t'.onStack, base, w, Succ(g, w), bound)
    requires base <= i < |t'.stack| && t'.stack[i] != v
    requires b in Looked(g, t'.stack[i], v, done) && b in t'.onStack && b in t'.num
    ensures bound <= t'.num[b]
  {
    assert b in Looked(g, t'.stack[i], w, Succ(g, w));
  }

  lemma FreshBound<N(!new)>(g: Digraph<N>, base: nat, t: Dfs<N>, t': Dfs<N>, v: N, done: set<N>, w: N)
    requires GoodStack(t) && GoodStack(t') && base < |t.stack| && t.stack[base] == v
    requires v in t.num && t.low[v] <= t.num[v]
    requires LowBound(g, t.stack, t.num, t.onStack, base, v, done, t.low[v])
    requires Visited(g, t, t', w) && w !in t.num
    ensures LowBound(g, t'.stack, t'.num, t'.onStack, base, v, done + {w}, Min(t.low[v], t'.low[w]))
  {
    hide Reaches, LowWitness, NewReached, Looked;
    var bound := Min(t.low[v], t'.low[w]);
    forall i: nat, b |
      base <= i < |t'.stack| && b in Looked(g, t'.stack[i], v, done + {w}) && b in t'.onStack && b in t'.num
      ensures bound <= t'.num[b]
    {
      hide LowBound;
      if i < |t.stack| {
        assert t'.stack[i] == t.stack[i];
        OldBound(g, base, t, t', v, done, w, i, b);
      } else {
        assert t'.stack[base] == v;
        NewBound(g, |t.stack|, t', v, done + {w}, w, t'.low[w], i, b);
      }
    }
  }

  lemma GrowsTrans<N(!new)>(s: Dfs<N>, t: Dfs<N>, u: Dfs<N>)
    requires Grows(s, t) && Grows(t, u)
    ensures Grows(s, u)
  {
  }

  lemma FreshReached<N(!new)>(g: Digraph<N>, s: Dfs<N>, t: Dfs<N>, t': Dfs<N>, v: N, w: N)
    requires NewReached(g, s.num.Keys, t.num.Keys, v) && NewReached(g, t.num.Keys, t'.num.Keys, w) && w in Succ(g, v)
    ensures NewReached(g, s.num.Keys, t'.num.Keys, v)
  {
    ReachesEdge(g, v, w);
    forall x | x in t'.num && x !in t.num
      ensures Reaches(g, v, x)
    {
      ReachesTrans(g, v, w, x);
    }
  }

  /** The branch for a target that had to be visited first. */
  lemma FreshTarget<N(!new)>(
      g: Digraph<N>, s: Dfs<N>, t: Dfs<N>, t': Dfs<N>, v: N, open: set<N>, done: set<N>, w: N)
    requires Visiting(g, s, t, v, open, done) && v !in s.num
    requires w in Succ(g, v) && w !in t.num
    requires Inv(g, t', open + {v}) && Visited(g, t, t', w)
    ensures v in t'.low && w in t'.low
    ensures Visiting(g, s, Lower(t', v, t'.low[w]), v, open, done + {w})
  {
    hide LowWitness, LowBound, Reaches, NewReached, Listing, ReachesUp, ReachesDown;
    LowerInv(g, t', v, t'.low[w], open + {v});
    FreshWitness(g, t, t', v, w);
    FreshBound(g, |s.stack|, t, t', v, done, w);
    GrowsTrans(s, t, t');
    LowerGrows(s, t', v, t'.low[w]);
    FreshReached(g, s, t, t', v, w);
    hide Inv, GoodStack;
  }

  // ------------------------------------------------------------------
  // The end of visit
  // ------------------------------------------------------------------

  /** The stack above position base, popped one by one. */
  ghost predicate PopOrder<N>(stack: seq<N>, base: nat, component: seq<N>) {
    && base <= |stack| && |component| == |stack| - base
    && forall i :: 0 <= i < |component| ==> component[i] == stack[|stack| - 1 - i]
  }

  function Popped<N(==)>(t: Dfs<N>, base: nat, component: seq<N>): Dfs<N>
    requires base <= |t.stack|
  {
    Dfs(t.index, t.stack[..base], t.onStack - (set x | x in component), t.num, t.low, t.comps + [component])
  }

  lemma PopMembers<N(!new)>(stack: seq<N>, base: nat, component: seq<N>)
    requires PopOrder(stack, base, component) && Distinct(stack)
    ensures Distinct(component)
    ensures forall x :: x in component <==> x in stack[base..]
    ensures forall x :: x in component ==> x in stack && x !in stack[..base]
    ensures forall x :: x in stack ==> x in component || x in stack[..base]
  {
    forall i | base <= i < |stack|
      ensures stack[i] in component
    {
      assert component[|stack| - 1 - i] == stack[i];
    }
  }

  /** Everything above v on the stack reaches v, so the popped nodes reach each other. */
  lemma PopConnected<N(!new)>(g: Digraph<N>, stack: seq<N>, base: nat, open: set<N>, v: N)
    requires base < |stack| && stack[base] == v
    requires ReachesUp(g, stack) && ReachesDown(g, stack, open + {v})
    requires forall x :: x in open ==> Reaches(g, x, v)
    ensures forall x, y :: x in stack[base..] && y in stack[base..] ==> Reaches(g, x, y)
  {
    forall x, y | x in stack[base..] && y in stack[base..]
      ensures Reaches(g, x, y)
    {
      var i :| base <= i < |stack| && stack[i] == x;
      var j :| base <= j < |stack| && stack[j] == y;
      assert Anchored(g, stack, open + {v}, i);
      var k: nat :| Anchor(g, stack, open + {v}, i, k);
      ReachesSelf(g, v);
      ReachesTrans(g, x, stack[k], v);
      ReachesTrans(g, x, v, y);
    }
  }

  /** No edge leaves the popped nodes except to emitted ones. */
  lemma PopClosed<N(!new)>(g: Digraph<N>, s: Dfs<N>, t: Dfs<N>, v: N, open: set<N>, x: N, y: N)
    requires Visiting(g, s, t, v, open, Succ(g, v)) && t.low[v] == t.num[v] && open <= s.onStack && GoodStack(s)
    requires x in t.stack[|s.stack|..] && y in Succ(g, x)
    ensures y in t.num && (y in t.onStack ==> y in t.stack[|s.stack|..])
  {
    hide Listing, Reaches, ReachesUp, ReachesDown, LowWitness;
    var n := |s.stack|;
    var i :| n <= i < |t.stack| && t.stack[i] == x;
    assert s.stack == t.stack[..n];
    assert x !in open + {v} || x == v;
    if y in t.onStack {
      assert y in Looked(g, t.stack[i], v, Succ(g, v));
      var j :| 0 <= j < |t.stack| && t.stack[j] == y;
      assert t.num[v] <= t.num[y];
      assert n <= j;
    }
  }

  lemma PopListing<N(!new)>(g: Digraph<N>, comps: seq<seq<N>>, emitted: set<N>, component: seq<N>)
    requires Listing(g, comps, emitted)
    requires component != [] && Distinct(component)
    requires forall x :: x in component ==> x !in emitted
    requires forall x, y :: x in component && y in component ==> Reaches(g, x, y)
    requires forall x, y :: x in component && y in Succ(g, x) ==> y in emitted || y in component
    ensures Listing(g, comps + [component], emitted + (set x | x in component))
  {
    var all := comps + [component];
    forall k: nat, y | k <= |comps| && InFirst(comps, k, y)
      ensures InFirst(all, k, y)
    {
      var j :| 0 <= j < k && y in comps[j];
      assert y in all[j];
    }
    forall x
      ensures x in emitted + (set z | z in component) <==> InFirst(all, |all|, x)
    {
      if x in component {
        assert x in all[|comps|];
      }
      if InFirst(all, |all|, x) {
        var j :| 0 <= j < |all| && x in all[j];
        if j < |comps| {
          assert InFirst(comps, |comps|, x);
        }
      }
    }
    forall k, l, x | 0 <= k < l < |all| && x in all[k]
      ensures x !in all[l]
    {
      if l == |comps| {
        assert InFirst(comps, |comps|, x);
      }
    }
    forall k, x, y | 0 <= k < |all| && x in all[k] && y in Succ(g, x)
      ensures InFirst(all, k + 1, y)
    {
      if k == |comps| {
        assert y in all[|comps|] || InFirst(comps, |comps|, y);
      }
    }
  }

  lemma PopListed<N(!new)>(g: Digraph<N>, s: Dfs<N>, t: Dfs<N>, v: N, open: set<N>, component: seq<N>)
    requires GoodStack(s) && open <= s.onStack && (forall x :: x in open ==> Reaches(g, x, v))
    requires Visiting(g, s, t, v, open, Succ(g, v)) && t.low[v] == t.num[v]
    requires PopOrder(t.stack, |s.stack|, component)
    ensures Listing(g, t.comps + [component], t.num.Keys - t.onStack + (set x | x in component))
  {
    var n := |s.stack|;
    PopMembers(t.stack, n, component);
    PopConnected(g, t.stack, n, open, v);
    forall x, y | x in component && y in Succ(g, x)
      ensures y in t.num.Keys - t.onStack || y in component
    {
      PopClosed(g, s, t, v, open, x, y);
    }
    assert v == t.stack[n..][0];
    PopListing(g, t.comps, t.num.Keys - t.onStack, component);
  }

  lemma PopRestores<N(!new)>(s: Dfs<N>, t: Dfs<N>, component: seq<N>)
    requires GoodStack(s) && GoodStack(t) && Grows(s, t) && PopOrder(t.stack, |s.stack|, component)
    ensures t.stack[..|s.stack|] == s.stack && t.onStack - (set x | x in component) == s.onStack
    ensures t.num.Keys - s.onStack == t.num.Keys - t.onStack + (set x | x in component)
  {
    PopMembers(t.stack, |s.stack|, component);
    assert t.stack[..|s.stack|] == s.stack;
    hide PopOrder, Distinct;
    forall x
      ensures x in t.onStack && x !in component <==> x in s.onStack
    {
    }
    assert t.num.Keys - s.onStack == t.num.Keys - t.onStack + (set x | x in component);
  }

  lemma PopStack<N(!new)>(s: Dfs<N>, t: Dfs<N>, component: seq<N>)
    requires GoodStack(s) && GoodStack(t) && Grows(s, t) && PopOrder(t.stack, |s.stack|, component)
    ensures Popped(t, |s.stack|, component).stack == s.stack
    ensures Popped(t, |s.stack|, component).onStack == s.onStack
    ensures GoodStack(Popped(t, |s.stack|, component)) && Grows(s, Popped(t, |s.stack|, component))
    ensures t.num.Keys - s.onStack == t.num.Keys - t.onStack + (set x | x in component)
  {
    PopRestores(s, t, component);
    hide PopOrder;
  }

  /** visit(v) ends by popping its component. */
  lemma PopEnds<N(!new)>(g: Digraph<N>, s: Dfs<N>, t: Dfs<N>, v: N, open: set<N>, component: seq<N>)
    requires Inv(g, s, open) && v !in s.num && (forall x :: x in open ==> Reaches(g, x, v))
    requires Visiting(g, s, t, v, open, Succ(g, v)) && t.low[v] == t.num[v]
    requires PopOrder(t.stack, |s.stack|, component)
    ensures Inv(g, Popped(t, |s.stack|, component), open)
    ensures Visited(g, s, Popped(t, |s.stack|, component), v)
  {
    hide Listing, Reaches, LowWitness, ReachesUp, ReachesDown, NewReached, PopOrder;
    PopListed(g, s, t, v, open, component);
    PopStack(s, t, component);
    var u := Popped(t, |s.stack|, component);
    assert v in t.num && v !in s.onStack && Succ(g, v) <= t.num.Keys;
    hide GoodStack, Grows;
  }

  lemma KeepReaches<N(!new)>(g: Digraph<N>, s: Dfs<N>, t: Dfs<N>, v: N, open: set<N>)
    requires GoodStack(t) && s.stack <= t.stack && v in t.num && LowWitness(g, t, v) && t.low[v] < t.num[v]
    requires |s.stack| < |t.stack| && t.stack[|s.stack|] == v
    requires ReachesDown(g, s.stack, open) && ReachesDown(g, t.stack, open + {v})
    ensures ReachesDown(g, t.stack, open)
  {
    var y :| y in t.onStack && y in t.num && t.num[y] == t.low[v] && Reaches(g, v, y);
    var m: nat :| m < |t.stack| && t.stack[m] == y;
    assert m < |s.stack|;
    assert Anchored(g, s.stack, open, m);
    var k': nat :| Anchor(g, s.stack, open, m, k');
    ReachesTrans(g, v, y, t.stack[k']);
    forall i: nat | i < |t.stack|
      ensures Anchored(g, t.stack, open, i)
    {
      assert Anchored(g, t.stack, open + {v}, i);
      var k: nat :| Anchor(g, t.stack, open + {v}, i, k);
      if t.stack[k] == v {
        ReachesTrans(g, t.stack[i], v, t.stack[k']);
        assert |s.stack| <= k;
        assert Anchor(g, t.stack, open, i, k');
      } else {
        assert Anchor(g, t.stack, open, i, k);
      }
    }
  }

  /** visit(v) ends leaving v on the stack for a node below it. */
  lemma KeepEnds<N(!new)>(g: Digraph<N>, s: Dfs<N>, t: Dfs<N>, v: N, open: set<N>)
    requires Inv(g, s, open) && v !in s.num
    requires Visiting(g, s, t, v, open, Succ(g, v)) && t.low[v] < t.num[v]
    ensures Inv(g, t, open) && Visited(g, s, t, v)
  {
    hide Listing, Reaches, LowWitness, ReachesUp, ReachesDown, NewReached, LowBound;
    KeepReaches(g, s, t, v, open);
    assert t.stack[|s.stack|] in t.onStack;
  }

  // ------------------------------------------------------------------
  // The search
  // ------------------------------------------------------------------

  lemma VisitingFacts<N(!new)>(g: Digraph<N>, s: Dfs<N>, t: Dfs<N>, v: N, open: set<N>, done: set<N>)
    requires Visiting(g, s, t, v, open, done)
    ensures Inv(g, t, open + {v})
    ensures v in t.num && v in t.low && t.low[v] <= t.num[v]
    ensures t.onStack <= t.num.Keys && forall i, j :: 0 <= i < j < |t.stack| ==> t.stack[i] != t.stack[j]
    ensures |s.stack| < |t.stack| && t.stack[|s.stack|] == v && s.num.Keys <= t.num.Keys
  {
  }

  class SccSearch<N(==, !new)> {
    const edges: Digraph<N>
    var index: nat
    var stack: seq<N>
    var onStack: set<N>
    var indexByNode: map<N, nat>
    var lowlinkByNode: map<N, nat>
    var components: seq<seq<N>>

    ghost function State(): Dfs<N>
      reads this
    {
      Dfs(index, stack, onStack, indexByNode, lowlinkByNode, components)
    }

    constructor (edges: Digraph<N>)
      ensures this.edges == edges && State() == Dfs(0, [], {}, map[], map[], [])
    {
      this.edges := edges;
      index, stack, onStack := 0, [], {};
      indexByNode, lowlinkByNode, components := map[], map[], [];
    }

    /** open lists the nodes whose visit encloses this one; universe is any
        closed set of nodes and bounds the recursion. */
    method Visit(node: N, ghost open: set<N>, ghost universe: set<N>)
      requires Inv(edges, State(), open) && node !in indexByNode
      requires forall x :: x in open ==> Reaches(edges, x, node)
      requires Closed(edges, universe) && node in universe
      modifies this
      ensures Inv(edges, State(), open)
      ensures Visited(edges, old(State()), State(), node)
      decreases universe - indexByNode.Keys
    {
      hide Visiting, Visited, Inv;
      ghost var start := State();
      EnterStarts(edges, start, node, open);
      indexByNode := indexByNode[node := index];
      lowlinkByNode := lowlinkByNode[node := index];
      index := index + 1;
      stack := stack + [node];
      onStack := onStack + {node};

      var pending := Succ(edges, node);
      ghost var done: set<N> := {};
      while pending != {}
        invariant done + pending == Succ(edges, node)
        invariant Visiting(edges, start, State(), node, open, done)
        decreases pending
      {
        VisitingFacts(edges, start, State(), node, open, done);
        var neighbor :| neighbor in pending;
        ghost var before := State();
        if neighbor !in indexByNode {
          ChildReached(edges, open, node, neighbor);
          Visit(neighbor, open + {node}, universe);
          FreshTarget(edges, start, before, State(), node, open, done, neighbor);
          lowlinkByNode := lowlinkByNode[node := Min(lowlinkByNode[node], lowlinkByNode[neighbor])];
        } else if neighbor in onStack {
          StackedTarget(edges, start, before, node, open, done, neighbor);
          lowlinkByNode := lowlinkByNode[node := Min(lowlinkByNode[node], indexByNode[neighbor])];
        } else {
          EmittedTarget(edges, start, before, node, open, done, neighbor);
        }
        pending, done := pending - {neighbor}, done + {neighbor};
      }
      assert done == Succ(edges, node);
      VisitingFacts(edges, start, State(), node, open, done);
      if lowlinkByNode[node] == indexByNode[node] {
        ghost var full := State();
        var component := PopDownTo(node, |start.stack|);
        components := components + [component];
        assert State() == Popped(full, |start.stack|, component);
        PopEnds(edges, start, full, node, open, component);
      } else {
        KeepEnds(edges, start, State(), node, open);
      }
    }

    /** The inner loop of visit: pop until node, which sits at position base, comes off. */
    method PopDownTo(node: N, ghost base: nat) returns (component: seq<N>)
      requires base < |stack| && stack[base] == node
      requires forall i, j :: 0 <= i < j < |stack| ==> stack[i] != stack[j]
      modifies this`stack, this`onStack
      ensures stack == old(stack)[..base] && PopOrder(old(stack), base, component)
      ensures onStack == old(onStack) - set x | x in component
    {
      component := [];
      while stack != []
        invariant base < |stack| && stack == old(stack)[..|stack|]
        invariant PopOrder(old(stack), |stack|, component)
        invariant forall x :: x in onStack <==> x in old(onStack) && x !in component
        decreases |stack|
      {
        var popped := stack[|stack| - 1];
        stack := stack[..|stack| - 1];
        onStack := onStack - {popped};
        component := component + [popped];
        if popped == node {
          break;
        }
      }
    }
  }

  lemma ChildReached<N(!new)>(g: Digraph<N>, open: set<N>, node: N, child: N)
    requires (forall x :: x in open ==> Reaches(g, x, node)) && child in Succ(g, node)
    ensures forall x :: x in open + {node} ==> Reaches(g, x, child)
  {
    ReachesEdge(g, node, child);
    forall x | x in open
      ensures Reaches(g, x, child)
    {
      ReachesTrans(g, x, node, child);
    }
  }

  // ------------------------------------------------------------------
  // The whole search and the verdict
  // ------------------------------------------------------------------

  function AsSet<N(==)>(s: seq<N>): set<N> {
    set x | x in s
  }

  /** The nodes of the first k components. */
  ghost function FirstNodes<N(!new)>(comps: seq<seq<N>>, k: nat): set<N>
    requires k <= |comps|
  {
    set j: nat, x | j < k && x in comps[j] :: x
  }

  lemma FirstClosed<N(!new)>(g: Digraph<N>, comps: seq<seq<N>>, emitted: set<N>, k: nat)
    requires Listing(g, comps, emitted) && k <= |comps|
    ensures Closed(g, FirstNodes(comps, k))
  {
    forall x, y | x in FirstNodes(comps, k) && y in Succ(g, x)
      ensures y in FirstNodes(comps, k)
    {
      var j: nat :| j < k && x in comps[j];
      assert InFirst(comps, j + 1, y);
      var i: nat :| i < j + 1 && y in comps[i];
    }
  }

  /** What a node of the i-th component reaches lies in the first i components or in its own. */
  lemma ReachesBack<N(!new)>(g: Digraph<N>, comps: seq<seq<N>>, emitted: set<N>, i: nat, x: N, y: N)
    requires Listing(g, comps, emitted) && i < |comps| && x in comps[i] && Reaches(g, x, y)
    ensures exists j: nat :: j <= i && y in comps[j]
  {
    FirstClosed(g, comps, emitted, i + 1);
    ClosedKeeps(g, FirstNodes(comps, i + 1), x, y);
    var j: nat :| j < i + 1 && y in comps[j];
  }

  lemma ListingCovers<N(!new)>(g: Digraph<N>, roots: set<N>, comps: seq<seq<N>>, emitted: set<N>, x: N)
    requires Listing(g, comps, emitted) && roots <= emitted
    requires ReachedFrom(g, roots, emitted)
    ensures InFirst(comps, |comps|, x) <==> RootReaches(g, roots, x)
  {
    if RootReaches(g, roots, x) {
      var r :| r in roots && Reaches(g, r, x);
      assert InFirst(comps, |comps|, r);
      var i: nat :| i < |comps| && r in comps[i];
      ReachesBack(g, comps, emitted, i, r, x);
    }
  }

  lemma ListingIsExact<N(!new)>(g: Digraph<N>, comps: seq<seq<N>>, emitted: set<N>, i: nat, x: N, y: N)
    requires Listing(g, comps, emitted) && i < |comps| && x in comps[i]
    ensures y in comps[i] <==> Reaches(g, x, y) && Reaches(g, y, x)
  {
    if Reaches(g, x, y) && Reaches(g, y, x) {
      ReachesBack(g, comps, emitted, i, x, y);
      var j: nat :| j <= i && y in comps[j];
      ReachesBack(g, comps, emitted, j, y, x);
    }
  }

  lemma ListingIsOrdered<N(!new)>(g: Digraph<N>, comps: seq<seq<N>>, emitted: set<N>, i: nat, j: nat, x: N, y: N)
    requires Listing(g, comps, emitted) && i < j < |comps| && x in comps[i] && y in comps[j]
    ensures !Reaches(g, x, y)
  {
    if Reaches(g, x, y) {
      ReachesBack(g, comps, emitted, i, x, y);
    }
  }

  /** The search invariant is enough: what it lists are exactly the components. */
  lemma {:induction false} ListingIsSccList<N(!new)>(g: Digraph<N>, roots: set<N>, comps: seq<seq<N>>, emitted: set<N>)
    requires Listing(g, comps, emitted) && roots <= emitted
    requires ReachedFrom(g, roots, emitted)
    ensures IsSccList(g, roots, comps)
  {
    hide Reaches, RootReaches, InFirst;
    forall x
      ensures InFirst(comps, |comps|, x) <==> RootReaches(g, roots, x)
    {
      ListingCovers(g, roots, comps, emitted, x);
    }
    forall i: nat, x, y | i < |comps| && x in comps[i]
      ensures y in comps[i] <==> Reaches(g, x, y) && Reaches(g, y, x)
    {
      ListingIsExact(g, comps, emitted, i, x, y);
    }
    forall i: nat, j: nat, x, y | i < j < |comps| && x in comps[i] && y in comps[j]
      ensures !Reaches(g, x, y)
    {
      ListingIsOrdered(g, comps, emitted, i, j, x, y);
    }
  }

  /** Two component lists for the same roots have the same components, whatever
      order the targets were taken in. */
  lemma SccListsAgree<N(!new)>(g: Digraph<N>, roots: set<N>, a: seq<seq<N>>, b: seq<seq<N>>, i: nat)
    requires IsSccList(g, roots, a) && IsSccList(g, roots, b) && i < |a|
    ensures exists j: nat :: j < |b| && AsSet(b[j]) == AsSet(a[i])
  {
    var x := a[i][0];
    assert InFirst(a, |a|, x);
    assert InFirst(b, |b|, x);
    var j: nat :| j < |b| && x in b[j];
    forall y
      ensures y in a[i] <==> y in b[j]
    {
      assert y in a[i] <==> Reaches(g, x, y) && Reaches(g, y, x);
    }
    assert AsSet(b[j]) == AsSet(a[i]);
  }

  function Nodes<N(==)>(g: Digraph<N>, roots: set<N>): set<N> {
    g.Keys + (set x, y | x in g && y in g[x] :: y) + roots
  }

  method FindComponents<N(==, !new)>(edges: Digraph<N>, modules: seq<N>) returns (components: seq<seq<N>>)
    ensures IsSccList(edges, AsSet(modules), components)
  {
    hide Inv, Visited, Reaches;
    var search := new SccSearch(edges);
    ghost var universe := Nodes(edges, AsSet(modules));
    ghost var roots := AsSet(modules);
    SearchStarts(edges);
    for i := 0 to |modules|
      invariant search.edges == edges
      invariant Inv(edges, search.State(), {})
      invariant forall k :: 0 <= k < i ==> modules[k] in search.indexByNode
      invariant ReachedFrom(edges, roots, search.indexByNode.Keys)
    {
      if modules[i] !in search.indexByNode {
        ghost var before := search.State();
        search.Visit(modules[i], {}, universe);
        RootVisited(edges, roots, before, search.State(), modules[i]);
      }
    }
    components := search.components;
    SearchEnds(edges, roots, search.State());
  }

  ghost predicate ReachedFrom<N(!new)>(g: Digraph<N>, roots: set<N>, s: set<N>) {
    forall x :: x in s ==> RootReaches(g, roots, x)
  }

  lemma SearchStarts<N(!new)>(g: Digraph<N>)
    ensures Inv(g, Dfs(0, [], {}, map[], map[], []), {})
  {
  }

  lemma RootVisited<N(!new)>(g: Digraph<N>, roots: set<N>, s: Dfs<N>, t: Dfs<N>, r: N)
    requires Visited(g, s, t, r) && r in roots && ReachedFrom(g, roots, s.num.Keys)
    ensures ReachedFrom(g, roots, t.num.Keys) && r in t.num && s.num.Keys <= t.num.Keys
  {
    hide Reaches, LowWitness, LowBound;
  }

  lemma SearchEnds<N(!new)>(g: Digraph<N>, roots: set<N>, s: Dfs<N>)
    requires Inv(g, s, {}) && ReachedFrom(g, roots, s.num.Keys) && roots <= s.num.Keys
    ensures IsSccList(g, roots, s.comps)
  {
    hide Reaches, Listing, IsSccList, ReachesUp;
    NothingOpen(g, s);
    ListingIsSccList(g, roots, s.comps, s.num.Keys - s.onStack);
  }

  lemma NoAnchor<N(!new)>(g: Digraph<N>, stack: seq<N>, i: nat)
    requires i < |stack|
    ensures !Anchored(g, stack, {}, i)
  {
  }

  lemma NothingOpen<N(!new)>(g: Digraph<N>, s: Dfs<N>)
    requires Inv(g, s, {})
    ensures s.onStack == {}
  {
    if s.stack != [] {
      NoAnchor(g, s.stack, 0);
      assert false;
    }
  }

  /** The linter's exit status: true for OK. Every key of the edge map is a
      module, as the edge parser only adds edges to the module it reads. */
  method NoImportCycles<N(==, !new)>(edges: Digraph<N>, modules: seq<N>) returns (ok: bool)
    requires edges.Keys <= AsSet(modules)
    ensures ok <==> !exists p :: IsCycle(edges, p)
  {
    var components := FindComponents(edges, modules);
    var cycleComponents := exists i :: 0 <= i < |components| && |components[i]| > 1;
    var selfCycles := exists m :: m in edges && m in edges[m];
    ok := !cycleComponents && !selfCycles;
    VerdictIsExact(edges, AsSet(modules), components);
    AcyclicIsNoCycle(edges);
  }

  lemma VerdictIsExact<N(!new)>(g: Digraph<N>, roots: set<N>, comps: seq<seq<N>>)
    requires IsSccList(g, roots, comps) && g.Keys <= roots
    ensures Acyclic(g) <==>
      (forall i :: 0 <= i < |comps| ==> |comps[i]| <= 1) && (forall m :: m in g ==> m !in g[m])
  {
    if i: nat :| i < |comps| && |comps[i]| > 1 {
      var a, b := comps[i][0], comps[i][1];
      assert Reaches(g, a, b) && Reaches(g, b, a);
      CycleThrough(g, a, b);
    }
    if m :| m in g && m in g[m] {
      ReachesSelf(g, m);
      assert m in Succ(g, m);
    }
    if x, y :| y in Succ(g, x) && Reaches(g, y, x) {
      ReachesSelf(g, x);
      ReachesEdge(g, x, y);
      assert InFirst(comps, |comps|, x);
      var i: nat :| i < |comps| && x in comps[i];
      assert y in comps[i];
      if |comps[i]| <= 1 {
        assert x == comps[i][0] == y;
      }
    }
  }

  lemma CycleThrough<N(!new)>(g: Digraph<N>, a: N, b: N)
    requires a != b && Reaches(g, a, b) && Reaches(g, b, a)
    ensures !Acyclic(g)
  {
    var p :| IsWalk(g, a, b, p);
    var c := p[1];
    assert IsWalk(g, c, b, p[1..]) by {
      forall i | 0 <= i < |p[1..]| - 1
        ensures p[1..][i + 1] in Succ(g, p[1..][i])
      {
        assert p[i + 1 + 1] in Succ(g, p[i + 1]);
      }
    }
    ReachesTrans(g, c, b, a);
    assert p[0 + 1] in Succ(g, p[0]);
  }
}
