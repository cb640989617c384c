// Container.checkCircle (container.go:157-177): the depth-first check Build runs from every
// registry key before it links any call site. The check is modelled as a pair of mutually
// recursive functions, one per key and one per dependency list, over the dependency graph
// the registry induces; a walk-based reference predicate states what the check decides.

module Graph {
  import opened Errors
  import opened Types

  /** Every registry key, mapped to the dependency names of the call site stored there. */
  type DepGraph = map<string, seq<TypeName>>

  function Visited(s: seq<string>): set<string>
  {
    set x | x in s
  }

  lemma VisitedAppend(s: seq<string>, x: string)
    ensures Visited(s + [x]) == Visited(s) + {x}
  {
    assert forall y :: y in s + [x] <==> y in s || y == x;
  }

  /** checkCircle(typeName, visited). */
  function CheckCircle(g: DepGraph, typeName: string, visited: seq<string>): (r: Option<Error>)
    requires typeName !in visited
    decreases g.Keys - Visited(visited), 0
    ensures typeName !in g ==> r == Some(Sentinel(DependencyNotFound, [typeName]))
    ensures r.Some? ==> r.value.Sentinel? && r.value.kind in {DependencyNotFound, CircleDependency}
  {
    if typeName !in g then Some(Sentinel(DependencyNotFound, [typeName]))
    else
      VisitedAppend(visited, typeName);
      CheckDeps(g, g[typeName], visited + [typeName])
  }

  /** The loop of checkCircle over source.Deps(), with `path` the visited list after the append. */
  function CheckDeps(g: DepGraph, deps: seq<TypeName>, path: seq<string>): (r: Option<Error>)
    decreases g.Keys - Visited(path), |deps| + 1
    ensures r.Some? ==> r.value.Sentinel? && r.value.kind in {DependencyNotFound, CircleDependency}
  {
    if deps == [] then None
    else if DropFirst(deps[0]) in path then Some(Sentinel(CircleDependency, path))
    else
      var e := CheckCircle(g, DropFirst(deps[0]), path);
      if e.Some? then e else CheckDeps(g, deps[1..], path)
  }

  // ----- what the check decides -----

  /** a's site has a dependency whose name, first character dropped, is b. */
  ghost predicate Edge(g: DepGraph, a: string, b: string)
  {
    a in g && exists i :: 0 <= i < |g[a]| && DropFirst(g[a][i]) == b
  }

  ghost predicate IsWalk(g: DepGraph, w: seq<string>)
  {
    |w| > 0 && forall i :: 0 <= i < |w| - 1 ==> Edge(g, w[i], w[i + 1])
  }

  ghost predicate Distinct(s: seq<string>)
  {
    forall i, j :: 0 <= i < j < |s| ==> s[i] != s[j]
  }

  /** Every walk from k visits no key twice and ends at a registered key. */
  ghost predicate Resolvable(g: DepGraph, k: string)
  {
    forall w :: IsWalk(g, w) && w[0] == k ==> Distinct(w) && w[|w| - 1] in g
  }

  /** The check from a key, started with no visited keys, succeeds exactly when the key is resolvable. */
  lemma CheckCircleCorrect(g: DepGraph, k: string)
    ensures CheckCircle(g, k, []) == None <==> Resolvable(g, k)
  {
    if CheckCircle(g, k, []) == None {
      forall w | IsWalk(g, w) && w[0] == k
        ensures Distinct(w) && w[|w| - 1] in g
      {
        CheckCircleSound(g, k, [], w);
        assert [] + w == w;
      }
    } else {
      CheckCircleComplete(g, k, []);
      var w :| IsWalk(g, w) && w[0] == k && !(Distinct([] + w) && w[|w| - 1] in g);
      assert [] + w == w;
    }
  }

  lemma {:induction false} CheckDepsNoneAt(g: DepGraph, deps: seq<TypeName>, path: seq<string>, i: nat)
    requires CheckDeps(g, deps, path) == None && i < |deps|
    ensures DropFirst(deps[i]) !in path && CheckCircle(g, DropFirst(deps[i]), path) == None
    decreases i
  {
    if i > 0 {
      CheckDepsNoneAt(g, deps[1..], path, i - 1);
      assert deps[1..][i - 1] == deps[i];
    }
  }

  /**
   * A failing check over a dependency list fails at some dependency: either that dependency
   * closes a circle on the path, or the check from it fails with the same error.
   */
  lemma {:induction false} CheckDepsSomeAt(g: DepGraph, deps: seq<TypeName>, path: seq<string>)
    returns (i: nat)
    requires CheckDeps(g, deps, path).Some?
    ensures i < |deps|
    ensures var n := DropFirst(deps[i]);
      (n in path && CheckDeps(g, deps, path) == Some(Sentinel(CircleDependency, path))) ||
      (n !in path && CheckCircle(g, n, path) == CheckDeps(g, deps, path))
    decreases |deps|
  {
    var n := DropFirst(deps[0]);
    if n in path || CheckCircle(g, n, path).Some? {
      i := 0;
    } else {
      var j := CheckDepsSomeAt(g, deps[1..], path);
      assert deps[1..][j] == deps[j + 1];
      i := j + 1;
    }
  }

  lemma {:induction false} DistinctAppend(v: seq<string>, k: string)
    requires Distinct(v) && k !in v
    ensures Distinct(v + [k])
  {
    forall i, j | 0 <= i < j < |v + [k]|
      ensures (v + [k])[i] != (v + [k])[j]
    {
      if j == |v| {
        assert (v + [k])[i] == v[i];
      }
    }
  }

  lemma {:induction false} CheckCircleSound(g: DepGraph, k: string, v: seq<string>, w: seq<string>)
    requires k !in v && Distinct(v)
    requires CheckCircle(g, k, v) == None
    requires IsWalk(g, w) && w[0] == k
    ensures Distinct(v + w) && w[|w| - 1] in g
    decreases |w|
  {
    assert k in g;
    DistinctAppend(v, k);
    if |w| == 1 {
      assert v + w == v + [k];
    } else {
      assert Edge(g, w[0], w[1]);
      var i :| 0 <= i < |g[k]| && DropFirst(g[k][i]) == w[1];
      CheckDepsNoneAt(g, g[k], v + [k], i);
      var w' := w[1..];
      assert IsWalk(g, w') by {
        forall j | 0 <= j < |w'| - 1
          ensures Edge(g, w'[j], w'[j + 1])
        {
          assert Edge(g, w[j + 1], w[j + 2]);
        }
      }
      CheckCircleSound(g, w[1], v + [k], w');
      assert v + [k] + w' == v + w;
    }
  }

  lemma {:induction false} CheckCircleComplete(g: DepGraph, k: string, v: seq<string>)
    requires k !in v
    requires CheckCircle(g, k, v).Some?
    ensures exists w :: IsWalk(g, w) && w[0] == k && !(Distinct(v + w) && w[|w| - 1] in g)
    decreases g.Keys - Visited(v)
  {
    if k !in g {
      var w := [k];
      assert IsWalk(g, w);
    } else {
      var path := v + [k];
      VisitedAppend(v, k);
      var i := CheckDepsSomeAt(g, g[k], path);
      var n := DropFirst(g[k][i]);
      assert Edge(g, k, n);
      if n in path {
        var w := [k, n];
        assert IsWalk(g, w);
        var j :| 0 <= j < |path| && path[j] == n;
        assert (v + w)[j] == n && (v + w)[|v| + 1] == n;
      } else {
        CheckCircleComplete(g, n, path);
        var w' :| IsWalk(g, w') && w'[0] == n && !(Distinct(path + w') && w'[|w'| - 1] in g);
        var w := BadWalkCons(g, k, v, w');
      }
    }
  }

  /** A walk extends backwards along an edge into its first key. */
  lemma WalkExtend(g: DepGraph, k: string, w: seq<string>)
    requires IsWalk(g, w) && Edge(g, k, w[0])
    ensures IsWalk(g, [k] + w)
  {
    var w' := [k] + w;
    forall j | 0 <= j < |w'| - 1
      ensures Edge(g, w'[j], w'[j + 1])
    {
      if j > 0 {
        assert Edge(g, w[j - 1], w[j]);
      }
    }
  }

  /** A walk from n that repeats a key or leaves the registry extends backwards along an edge from k into n. */
  lemma BadWalkCons(g: DepGraph, k: string, v: seq<string>, w: seq<string>) returns (w': seq<string>)
    requires IsWalk(g, w) && Edge(g, k, w[0])
    requires !(Distinct(v + [k] + w) && w[|w| - 1] in g)
    ensures IsWalk(g, w') && w'[0] == k && !(Distinct(v + w') && w'[|w'| - 1] in g)
  {
    w' := [k] + w;
    WalkExtend(g, k, w);
    assert v + [k] + w == v + w';
    assert w'[|w'| - 1] == w[|w| - 1];
  }

  /** Key a's site has a dependency whose name, first character dropped, is on p. */
  ghost predicate ClosesOn(g: DepGraph, a: string, p: seq<string>)
  {
    a in g && exists i :: 0 <= i < |g[a]| && DropFirst(g[a][i]) in p
  }

  /**
   * A circle error names the current depth-first path: the visited keys followed by a walk
   * from the start key whose last site has a dependency already on the path.
   */
  lemma {:induction false} CircleReportsPath(g: DepGraph, k: string, v: seq<string>, p: seq<string>)
    requires k !in v
    requires CheckCircle(g, k, v) == Some(Sentinel(CircleDependency, p))
    ensures exists w :: IsWalk(g, w) && w[0] == k && p == v + w && ClosesOn(g, w[|w| - 1], p)
    decreases g.Keys - Visited(v)
  {
    assert k in g;
    var path := v + [k];
    VisitedAppend(v, k);
    var i := CheckDepsSomeAt(g, g[k], path);
    var n := DropFirst(g[k][i]);
    if n in path {
      var w := [k];
      assert IsWalk(g, w) && p == v + w;
      assert DropFirst(g[k][i]) in p;
    } else {
      CircleReportsPath(g, n, path, p);
      var w' :| IsWalk(g, w') && w'[0] == n && p == path + w' && ClosesOn(g, w'[|w'| - 1], p);
      assert Edge(g, k, n);
      var w := WalkCons(g, k, v, p, w');
    }
  }

  /** A walk from n that reports p extends backwards along an edge from k into n. */
  lemma WalkCons(g: DepGraph, k: string, v: seq<string>, p: seq<string>, w: seq<string>)
    returns (w': seq<string>)
    requires IsWalk(g, w) && Edge(g, k, w[0])
    requires p == v + [k] + w && ClosesOn(g, w[|w| - 1], p)
    ensures IsWalk(g, w') && w'[0] == k && p == v + w' && ClosesOn(g, w'[|w'| - 1], p)
  {
    w' := [k] + w;
    WalkExtend(g, k, w);
    assert v + [k] + w == v + w';
    assert w'[|w'| - 1] == w[|w| - 1];
  }

  // ----- what a successful check gives later phases -----

  /** A successful check stays successful when fewer keys count as visited. */
  lemma {:induction false} CheckCircleMonotone(g: DepGraph, k: string, v: seq<string>, v': seq<string>)
    requires k !in v && k !in v' && Visited(v') <= Visited(v)
    requires CheckCircle(g, k, v) == None
    ensures CheckCircle(g, k, v') == None
    decreases g.Keys - Visited(v'), 0
  {
    VisitedAppend(v, k);
    VisitedAppend(v', k);
    CheckDepsMonotone(g, g[k], v + [k], v' + [k]);
  }

  lemma {:induction false} CheckDepsMonotone(g: DepGraph, deps: seq<TypeName>, path: seq<string>, path': seq<string>)
    requires Visited(path') <= Visited(path)
    requires CheckDeps(g, deps, path) == None
    ensures CheckDeps(g, deps, path') == None
    decreases g.Keys - Visited(path'), |deps| + 1
  {
    if deps != [] {
      var n := DropFirst(deps[0]);
      assert n !in path;
      assert n !in Visited(path');
      CheckCircleMonotone(g, n, path, path');
      CheckDepsMonotone(g, deps[1..], path, path');
    }
  }

  /** Every dependency of a list that passes the check is a registry key. */
  lemma CheckDepsFound(g: DepGraph, deps: seq<TypeName>, i: nat)
    requires CheckDeps(g, deps, []) == None && i < |deps|
    ensures DropFirst(deps[i]) in g
  {
    CheckDepsNoneAt(g, deps, [], i);
  }

  /** A key that passes the check has a dependency list that passes the check on its own. */
  lemma CheckCircleDeps(g: DepGraph, k: string)
    requires CheckCircle(g, k, []) == None
    ensures k in g && CheckDeps(g, g[k], []) == None
  {
    assert [] + [k] == [k];
    CheckDepsMonotone(g, g[k], [k], []);
  }

  /** The longest chain of resolvable keys below k, counting k. */
  ghost function Height(g: DepGraph, k: string, v: seq<string>): nat
    requires k !in v
    decreases g.Keys - Visited(v), 0
  {
    if k !in g then 0
    else
      VisitedAppend(v, k);
      1 + MaxHeight(g, g[k], v + [k])
  }

  ghost function MaxHeight(g: DepGraph, deps: seq<TypeName>, path: seq<string>): nat
    decreases g.Keys - Visited(path), |deps| + 1
  {
    if deps == [] then 0
    else
      var n := DropFirst(deps[0]);
      var h := if n in path then 0 else Height(g, n, path);
      var rest := MaxHeight(g, deps[1..], path);
      if h > rest then h else rest
  }

  /** The rank of a dependency list: a measure that strictly decreases along linked call sites. */
  ghost function Rank(g: DepGraph, deps: seq<TypeName>): nat
  {
    MaxHeight(g, deps, [])
  }

  lemma {:induction false} MaxHeightAtLeast(g: DepGraph, deps: seq<TypeName>, path: seq<string>, i: nat)
    requires i < |deps| && DropFirst(deps[i]) !in path
    ensures MaxHeight(g, deps, path) >= Height(g, DropFirst(deps[i]), path)
    decreases i
  {
    if i > 0 {
      assert deps[1..][i - 1] == deps[i];
      MaxHeightAtLeast(g, deps[1..], path, i - 1);
    }
  }

  lemma {:induction false} HeightIndependent(g: DepGraph, k: string, v1: seq<string>, v2: seq<string>)
    requires k !in v1 && k !in v2
    requires CheckCircle(g, k, v1) == None && CheckCircle(g, k, v2) == None
    ensures Height(g, k, v1) == Height(g, k, v2)
    decreases g.Keys - Visited(v1), 0
  {
    VisitedAppend(v1, k);
    MaxHeightIndependent(g, g[k], v1 + [k], v2 + [k]);
  }

  lemma {:induction false} MaxHeightIndependent(g: DepGraph, deps: seq<TypeName>, p1: seq<string>, p2: seq<string>)
    requires CheckDeps(g, deps, p1) == None && CheckDeps(g, deps, p2) == None
    ensures MaxHeight(g, deps, p1) == MaxHeight(g, deps, p2)
    decreases g.Keys - Visited(p1), |deps| + 1
  {
    if deps != [] {
      HeightIndependent(g, DropFirst(deps[0]), p1, p2);
      MaxHeightIndependent(g, deps[1..], p1, p2);
    }
  }

  /**
   * Following a dependency of a list that passes the check leads to a key whose own list
   * passes the check and has a strictly smaller rank.
   */
  lemma RankDecreases(g: DepGraph, deps: seq<TypeName>, i: nat)
    requires CheckDeps(g, deps, []) == None && i < |deps|
    ensures DropFirst(deps[i]) in g
    ensures CheckDeps(g, g[DropFirst(deps[i])], []) == None
    ensures Rank(g, g[DropFirst(deps[i])]) < Rank(g, deps)
  {
    var n := DropFirst(deps[i]);
    CheckDepsNoneAt(g, deps, [], i);
    CheckCircleDeps(g, n);
    assert [] + [n] == [n];
    MaxHeightAtLeast(g, deps, [], i);
    MaxHeightIndependent(g, g[n], [n], []);
  }
}
