/**
 The license audit's worklist: which installed packages the repository pulls in
 (linting/licenses/audit.py). An installed distribution is represented by the
 names its requirement lines parse to.
 */
module LicenseClosure {
  import opened Graph

  type Installed<N> = map<N, seq<N>>

  /** Edges between installed packages only. */
  ghost function DependencyGraph<N(!new)>(installed: Installed<N>): Digraph<N> {
    map n | n in installed :: set d | d in installed[n] && d in installed
  }

  /** x is an installed root or a dependency of one through installed packages. */
  ghost predicate Needed<N(!new)>(installed: Installed<N>, roots: set<N>, x: N) {
    exists r :: r in roots && r in installed && Reaches(DependencyGraph(installed), r, x)
  }

  /** p leads from an installed root to its last package, each package installed
      and required by the one before. */
  ghost predicate IsChain<N(!new)>(installed: Installed<N>, roots: set<N>, p: seq<N>) {
    && |p| > 0 && p[0] in roots
    && (forall i :: 0 <= i < |p| ==> p[i] in installed)
    && (forall i :: 0 <= i < |p| - 1 ==> p[i + 1] in installed[p[i]])
  }

  /** Needed packages are those at the end of a chain. */
  lemma NeededIsChain<N(!new)>(installed: Installed<N>, roots: set<N>, x: N)
    ensures Needed(installed, roots, x) <==> exists p :: IsChain(installed, roots, p) && p[|p| - 1] == x
  {
    var g := DependencyGraph(installed);
    if Needed(installed, roots, x) {
      var r :| r in roots && r in installed && Reaches(g, r, x);
      ReachesIsPath(g, r, x);
      var p :| IsPath(g, p) && p[0] == r && p[|p| - 1] == x;
      forall i | 0 <= i < |p|
        ensures p[i] in installed
      {
        if i > 0 {
          assert p[i - 1 + 1] in g[p[i - 1]];
        }
      }
      assert IsChain(installed, roots, p);
    }
    if p :| IsChain(installed, roots, p) && p[|p| - 1] == x {
      assert IsPath(g, p);
      ReachesIsPath(g, p[0], x);
    }
  }

  /** The required names that are installed and not resolved, in the order and
      as often as they are required. */
  function Wanted<N(==)>(requirements: seq<N>, installed: Installed<N>, resolved: map<N, seq<N>>): seq<N> {
    if requirements == [] then []
    else
      var front, last := requirements[..|requirements| - 1], requirements[|requirements| - 1];
      Wanted(front, installed, resolved) + if last in installed && last !in resolved then [last] else []
  }

  method DependencyNames<N(==)>(requirements: seq<N>, installed: Installed<N>, resolved: map<N, seq<N>>)
    returns (names: seq<N>)
    ensures names == Wanted(requirements, installed, resolved)
    ensures forall d :: d in names <==> d in requirements && d in installed && d !in resolved
  {
    names := [];
    for i := 0 to |requirements|
      invariant names == Wanted(requirements[..i], installed, resolved)
      invariant forall d :: d in names <==> d in requirements[..i] && d in installed && d !in resolved
    {
      assert requirements[..i + 1][..i] == requirements[..i];
      if requirements[i] in installed && requirements[i] !in resolved {
        names := names + [requirements[i]];
      }
    }
    assert requirements[..|requirements|] == requirements;
  }

  // ------------------------------------------------------------------
  // Sorting
  // ------------------------------------------------------------------

  /** before is how Python orders the names. */
  ghost predicate TotalOrder<N(!new)>(before: (N, N) -> bool) {
    && (forall a, b :: before(a, b) || before(b, a))
    && (forall a, b :: before(a, b) && before(b, a) ==> a == b)
    && (forall a, b, c :: before(a, b) && before(b, c) ==> before(a, c))
  }

  predicate Ascending<N(==)>(names: seq<N>, before: (N, N) -> bool) {
    forall i, j :: 0 <= i < j < |names| ==> names[i] != names[j] && before(names[i], names[j])
  }

  predicate IsLeast<N(==)>(s: set<N>, before: (N, N) -> bool, x: N) {
    x in s && forall y :: y in s ==> before(x, y)
  }

  lemma LeastOfMore<N(!new)>(s: set<N>, before: (N, N) -> bool, x: N, a: N) returns (least: N)
    requires TotalOrder(before) && (IsLeast(s, before, x) || s == {})
    ensures IsLeast(s + {a}, before, least)
  {
    least := if s == {} || before(a, x) then a else x;
  }

  lemma {:induction false} LeastExists<N(!new)>(s: set<N>, before: (N, N) -> bool) returns (least: N)
    requires TotalOrder(before) && s != {}
    ensures IsLeast(s, before, least)
    decreases |s|
  {
    hide TotalOrder, IsLeast;
    var a :| a in s;
    var rest := s - {a};
    assert rest + {a} == s;
    var x := a;
    if rest != {} {
      x := LeastExists(rest, before);
    }
    least := LeastOfMore(rest, before, x, a);
  }

  method Sorted<N(==, !new)>(s: set<N>, before: (N, N) -> bool) returns (names: seq<N>)
    requires TotalOrder(before)
    ensures Ascending(names, before) && forall x :: x in names <==> x in s
  {
    names := [];
    var rest := s;
    while rest != {}
      invariant forall x :: x in s <==> x in names || x in rest
      invariant forall x, y :: x in names && y in rest ==> x != y && before(x, y)
      invariant Ascending(names, before)
      decreases rest
    {
      ghost var least := LeastExists(rest, before);
      var x :| x in rest && (forall y :: y in rest ==> before(x, y));
      assert forall y :: y in names ==> y != x && before(y, x);
      rest := rest - {x};
      names := names + [x];
    }
  }

  lemma NeededStep<N(!new)>(installed: Installed<N>, roots: set<N>, x: N, d: N)
    requires Needed(installed, roots, x) && x in installed && d in installed[x] && d in installed
    ensures Needed(installed, roots, d)
  {
    var g := DependencyGraph(installed);
    var r :| r in roots && r in installed && Reaches(g, r, x);
    ReachesEdge(g, x, d);
    ReachesTrans(g, r, x, d);
  }

  /** A resolved set that is closed under installed dependencies misses nothing. */
  lemma NothingMissing<N(!new)>(installed: Installed<N>, roots: set<N>, resolved: set<N>, x: N)
    requires forall r :: r in roots && r in installed ==> r in resolved
    requires forall n, d :: n in resolved && n in installed && d in installed[n] && d in installed ==> d in resolved
    requires Needed(installed, roots, x)
    ensures x in resolved
  {
    var g := DependencyGraph(installed);
    var r :| r in roots && r in installed && Reaches(g, r, x);
    assert Closed(g, resolved);
    ClosedKeeps(g, resolved, r, x);
  }

  /** The loop invariant: nothing superfluous is queued or resolved, and what
      is still missing is queued. */
  ghost predicate Progress<N(!new)>(installed: Installed<N>, roots: set<N>, queue: seq<N>, resolved: set<N>) {
    && resolved <= installed.Keys
    && (forall x :: x in queue && x in installed ==> Needed(installed, roots, x))
    && (forall x :: x in resolved ==> Needed(installed, roots, x))
    && (forall r :: r in roots && r in installed ==> r in resolved || r in queue)
    && (forall n, d :: n in resolved && d in installed[n] && d in installed ==> d in resolved || d in queue)
  }

  lemma SkipHead<N(!new)>(installed: Installed<N>, roots: set<N>, queue: seq<N>, resolved: set<N>)
    requires Progress(installed, roots, queue, resolved)
    requires queue != [] && (queue[0] in resolved || queue[0] !in installed)
    ensures Progress(installed, roots, queue[1..], resolved)
  {
    hide Needed;
    assert forall x :: x in queue ==> x == queue[0] || x in queue[1..];
  }

  lemma ResolveHead<N(!new)>(
      installed: Installed<N>, roots: set<N>, queue: seq<N>, resolved: set<N>, found: seq<N>)
    requires Progress(installed, roots, queue, resolved) && queue != [] && queue[0] in installed
    requires forall d :: d in found <==> d in installed[queue[0]] && d in installed && d !in resolved + {queue[0]}
    ensures Progress(installed, roots, queue[1..] + found, resolved + {queue[0]})
  {
    forall d | d in found
      ensures Needed(installed, roots, d)
    {
      NeededStep(installed, roots, queue[0], d);
    }
    hide Needed;
    assert forall x :: x in queue ==> x == queue[0] || x in queue[1..];
  }

  /** Breadth-first over a queue. A name may be queued several times and is
      skipped when it comes up again. */
  method ResolveDistributions<N(==, !new)>(installed: Installed<N>, roots: set<N>, before: (N, N) -> bool)
    returns (names: seq<N>)
    requires TotalOrder(before)
    ensures Ascending(names, before)
    ensures forall x :: x in names <==> exists p :: IsChain(installed, roots, p) && p[|p| - 1] == x
  {
    hide Needed, Progress, TotalOrder, Ascending, Wanted;
    var queue := InstalledRoots(installed, roots, before);
    var resolved: map<N, seq<N>> := map[];
    ProgressStarts(installed, roots, queue);
    assert resolved.Keys == {};
    while queue != []
      invariant Progress(installed, roots, queue, resolved.Keys)
      decreases installed.Keys - resolved.Keys, |queue|
    {
      ghost var queued, done := queue, resolved.Keys;
      var name := queue[0];
      queue := queue[1..];
      if name in resolved || name !in installed {
        SkipHead(installed, roots, queued, done);
        continue;
      }
      resolved := resolved[name := installed[name]];
      assert resolved.Keys == done + {name} && name in installed.Keys - done;
      var found := DependencyNames(installed[name], installed, resolved);
      ResolveHead(installed, roots, queued, done, found);
      queue := queue + found;
    }
    NothingQueued(installed, roots, resolved.Keys);
    names := Sorted(resolved.Keys, before);
    forall x
      ensures Needed(installed, roots, x) <==> exists p :: IsChain(installed, roots, p) && p[|p| - 1] == x
    {
      NeededIsChain(installed, roots, x);
    }
  }

  lemma ProgressStarts<N(!new)>(installed: Installed<N>, roots: set<N>, queue: seq<N>)
    requires forall r :: r in queue <==> r in roots && r in installed
    requires forall r :: r in queue ==> Needed(installed, roots, r)
    ensures Progress(installed, roots, queue, {})
  {
  }

  lemma NothingQueued<N(!new)>(installed: Installed<N>, roots: set<N>, resolved: set<N>)
    requires Progress(installed, roots, [], resolved)
    ensures forall x :: x in resolved <==> Needed(installed, roots, x)
  {
    forall x | Needed(installed, roots, x)
      ensures x in resolved
    {
      NothingMissing(installed, roots, resolved, x);
    }
  }

  method InstalledRoots<N(==, !new)>(installed: Installed<N>, roots: set<N>, before: (N, N) -> bool)
    returns (queue: seq<N>)
    requires TotalOrder(before)
    ensures Ascending(queue, before) && forall r :: r in queue <==> r in roots && r in installed
    ensures forall r :: r in queue ==> Needed(installed, roots, r)
  {
    var sorted := Sorted(roots, before);
    queue := [];
    for i := 0 to |sorted|
      invariant forall r :: r in queue <==> r in sorted[..i] && r in installed
      invariant Ascending(queue, before)
    {
      if sorted[i] in installed {
        assert forall r :: r in sorted[..i] ==> r != sorted[i] && before(r, sorted[i]);
        queue := queue + [sorted[i]];
      }
    }
    forall r | r in queue
      ensures Needed(installed, roots, r)
    {
      ReachesSelf(DependencyGraph(installed), r);
    }
  }
}
