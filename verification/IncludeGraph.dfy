/** Walking a graph of proxies along simple paths only, as both include walks do: every
    node that is reachable is reached, and exactly the ends of lassos are re-entered. */
module IncludeGraph {
  import opened Kube

  /** The successors of each node. */
  type Graph = map<Name, set<Name>>

  ghost predicate Closed(g: Graph)
  {
    forall n, m :: n in g && m in g[n] ==> m in g
  }

  /** The nodes that are stepped to when the walk starts at n and stops at any node that
      is already on its path. */
  ghost function Reached(g: Graph, n: Name, visited: set<Name>): (ns: set<Name>)
    requires Closed(g) && n in g
    decreases g.Keys - visited, 0
  {
    if n in visited then {} else g[n] + ReachedFrom(g, g[n], visited + {n})
  }

  ghost function ReachedFrom(g: Graph, starts: set<Name>, visited: set<Name>): (ns: set<Name>)
    requires Closed(g) && starts <= g.Keys
    decreases g.Keys - visited, 1
  {
    set q, x | q in starts && x in Reached(g, q, visited) :: x
  }

  /** The nodes at which the walk finds itself on its own path. */
  ghost function Reentered(g: Graph, n: Name, visited: set<Name>): (ns: set<Name>)
    requires Closed(g) && n in g
    decreases g.Keys - visited
  {
    if n in visited then {n}
    else set q, x | q in g[n] && x in Reentered(g, q, visited + {n}) :: x
  }

  ghost predicate IsPath(g: Graph, p: seq<Name>)
  {
    && p != []
    && (forall i :: 0 <= i < |p| ==> p[i] in g)
    && (forall i :: 0 <= i < |p| - 1 ==> p[i + 1] in g[p[i]])
  }

  ghost predicate Distinct(s: seq<Name>)
  {
    forall i, j :: 0 <= i < j < |s| ==> s[i] != s[j]
  }

  function Last(p: seq<Name>): (n: Name)
    requires p != []
  {
    p[|p| - 1]
  }

  function Front(p: seq<Name>): (q: seq<Name>)
    requires p != []
  {
    p[..|p| - 1]
  }

  /** A path of one step or more. */
  ghost predicate Leads(g: Graph, p: seq<Name>, from: Name, to: Name)
  {
    IsPath(g, p) && |p| >= 2 && p[0] == from && Last(p) == to
  }

  lemma PathTail(g: Graph, p: seq<Name>)
    requires IsPath(g, p) && |p| >= 2
    ensures IsPath(g, p[1..]) && Last(p[1..]) == Last(p) && Front(p) == [p[0]] + Front(p[1..])
    ensures p[1] in g[p[0]]
  {
    var t := p[1..];
    assert forall i :: 0 <= i < |t| ==> t[i] == p[i + 1];
    forall i | 0 <= i < |t| - 1
      ensures t[i + 1] in g[t[i]]
    {
      assert p[i + 2] in g[p[i + 1]];
    }
  }

  lemma PathCons(g: Graph, n: Name, p: seq<Name>)
    requires IsPath(g, p) && n in g && p[0] in g[n]
    ensures IsPath(g, [n] + p) && Last([n] + p) == Last(p) && Front([n] + p) == [n] + Front(p)
  {
    var s := [n] + p;
    forall i | 0 <= i < |s| - 1
      ensures s[i + 1] in g[s[i]]
    {
      if i > 0 {
        assert p[i - 1 + 1] in g[p[i - 1]];
      }
    }
  }

  /** Cutting a loop out of a path. */
  lemma PathCut(g: Graph, p: seq<Name>, i: nat, j: nat)
    requires IsPath(g, p) && i < j < |p| && p[i] == p[j]
    ensures IsPath(g, p[..i] + p[j..])
  {
    var s := p[..i] + p[j..];
    forall k | 0 <= k < |s| - 1
      ensures s[k + 1] in g[s[k]]
    {
      if k + 1 < i {
        assert s[k] == p[k] && s[k + 1] == p[k + 1];
      } else if k + 1 == i {
        assert s[k] == p[k] && s[k + 1] == p[j] == p[k + 1];
      } else {
        assert s[k] == p[k - i + j] && s[k + 1] == p[k - i + j + 1];
      }
    }
  }

  // ----- everything reachable is reached --------------------------------------------------------

  lemma {:induction false} ReachedHasPath(g: Graph, n: Name, visited: set<Name>, x: Name) returns (p: seq<Name>)
    requires Closed(g) && n in g && x in Reached(g, n, visited)
    ensures Leads(g, p, n, x)
    decreases g.Keys - visited
  {
    if x in g[n] {
      p := [n, x];
    } else {
      var q :| q in g[n] && x in Reached(g, q, visited + {n});
      var rest := ReachedHasPath(g, q, visited + {n}, x);
      PathCons(g, n, rest);
      p := [n] + rest;
    }
  }

  /** The end of a path that is simple up to its last step, and clear of what was visited. */
  lemma {:induction false} SimplePathIsReached(g: Graph, p: seq<Name>, visited: set<Name>)
    requires Closed(g) && IsPath(g, p) && |p| >= 2
    requires Distinct(Front(p)) && forall i :: 0 <= i < |p| - 1 ==> p[i] !in visited
    ensures Last(p) in Reached(g, p[0], visited)
    decreases |p|
  {
    PathTail(g, p);
    if |p| > 2 {
      var t, n := p[1..], p[0];
      assert forall i :: 0 <= i < |Front(t)| ==> Front(t)[i] == Front(p)[i + 1];
      forall i | 0 <= i < |t| - 1
        ensures t[i] !in visited + {n}
      {
        assert t[i] == p[i + 1] == Front(p)[i + 1] && Front(p)[0] == n;
      }
      SimplePathIsReached(g, t, visited + {n});
      assert t[0] in g[n] && Last(p) in Reached(g, t[0], visited + {n});
    }
  }

  /** A path can be made simple up to its last step. */
  lemma {:induction false} MakeSimple(g: Graph, p: seq<Name>) returns (s: seq<Name>)
    requires IsPath(g, p) && |p| >= 2
    ensures Leads(g, s, p[0], Last(p)) && Distinct(Front(s))
    decreases |p|
  {
    if Distinct(Front(p)) {
      s := p;
    } else {
      var i, j :| 0 <= i < j < |Front(p)| && Front(p)[i] == Front(p)[j];
      PathCut(g, p, i, j);
      var cut := p[..i] + p[j..];
      assert cut[0] == p[0];
      s := MakeSimple(g, cut);
    }
  }

  /** Exploring simple paths only reaches exactly what is reachable. */
  lemma ReachedIsReachable(g: Graph, n: Name, x: Name)
    requires Closed(g) && n in g
    ensures x in Reached(g, n, {}) <==> exists p :: Leads(g, p, n, x)
  {
    if x in Reached(g, n, {}) {
      var p := ReachedHasPath(g, n, {}, x);
    }
    if p :| Leads(g, p, n, x) {
      var s := MakeSimple(g, p);
      SimplePathIsReached(g, s, {});
    }
  }

  // ----- what is re-entered -----------------------------------------------------------------------

  /** A path that is simple up to its last step, which goes back to it or to what was
      visited before. */
  ghost predicate Lasso(g: Graph, p: seq<Name>, n: Name, visited: set<Name>, x: Name)
  {
    && IsPath(g, p) && p[0] == n && Last(p) == x
    && Distinct(Front(p)) && (forall i :: 0 <= i < |p| - 1 ==> p[i] !in visited)
    && (x in visited || x in Front(p))
  }

  lemma {:induction false} ReenteredHasLasso(g: Graph, n: Name, visited: set<Name>, x: Name) returns (p: seq<Name>)
    requires Closed(g) && n in g && x in Reentered(g, n, visited)
    ensures Lasso(g, p, n, visited, x)
    decreases g.Keys - visited
  {
    if n in visited {
      p := [n];
    } else {
      var q :| q in g[n] && x in Reentered(g, q, visited + {n});
      var rest := ReenteredHasLasso(g, q, visited + {n}, x);
      PathCons(g, n, rest);
      p := [n] + rest;
      assert Front(p) == [n] + Front(rest);
      assert forall i :: 0 <= i < |Front(rest)| ==> Front(rest)[i] == rest[i] != n;
      assert Front(p)[0] == n;
      assert x in Front(rest) ==> x in Front(p);
      assert forall i :: 0 < i < |p| - 1 ==> p[i] == rest[i - 1];
    }
  }

  lemma {:induction false} LassoIsReentered(g: Graph, p: seq<Name>, n: Name, visited: set<Name>, x: Name)
    requires Closed(g) && Lasso(g, p, n, visited, x)
    ensures n in g && x in Reentered(g, n, visited)
    decreases |p|
  {
    if |p| > 1 {
      PathTail(g, p);
      var t := p[1..];
      assert p[0] !in visited;
      assert forall i :: 0 <= i < |Front(t)| ==> Front(t)[i] == Front(p)[i + 1];
      forall i | 0 <= i < |t| - 1
        ensures t[i] !in visited + {n}
      {
        assert t[i] == Front(p)[i + 1] && Front(p)[0] == n;
      }
      if x !in visited && x != n {
        var k :| 0 <= k < |Front(p)| && Front(p)[k] == x;
        assert Front(t)[k - 1] == x;
      }
      LassoIsReentered(g, t, t[0], visited + {n}, x);
    }
  }

  /** The walk re-enters exactly the nodes at the ends of lassos from its start. */
  lemma ReenteredIsLasso(g: Graph, n: Name, x: Name)
    requires Closed(g) && n in g
    ensures x in Reentered(g, n, {}) <==> exists p :: Lasso(g, p, n, {}, x)
  {
    if x in Reentered(g, n, {}) {
      var p := ReenteredHasLasso(g, n, {}, x);
    }
    if p :| Lasso(g, p, n, {}, x) {
      LassoIsReentered(g, p, n, {}, x);
    }
  }
}
