/** The two include walks seen as walks over graphs: which proxies they visit, and which
    they find on their own path. */
module Reachability {
  import opened Kube
  import opened Proxies
  import opened Compiler
  import opened IncludeGraph

  /** The include edges that computeRoutes follows from a proxy. */
  ghost function RouteSuccessors(env: Env, p: Proxy): (ns: set<Name>)
  {
    if IncludesIdentical(p.includes) then {} else Targets(env, p, p.includes)
  }

  ghost function Targets(env: Env, p: Proxy, incs: seq<Include>): (ns: set<Name>)
  {
    set i | 0 <= i < |incs| && OutcomeOf(env, p, incs[i]) == Follow :: TargetOf(p, incs[i])
  }

  ghost function RouteGraph(env: Env): (g: Graph)
    ensures Closed(g) && g.Keys == env.proxies.Keys
  {
    map n | n in env.proxies :: RouteSuccessors(env, env.proxies[n])
  }

  ghost function TCPGraph(env: Env): (g: Graph)
    ensures Closed(g) && g.Keys == env.proxies.Keys
  {
    map n | n in env.proxies :: var s := TCPStepOf(env, env.proxies[n]); if s.TCPFollow? then {s.target} else {}
  }

  lemma TargetsStep(env: Env, p: Proxy, incs: seq<Include>)
    requires incs != []
    ensures Targets(env, p, incs) ==
            (if OutcomeOf(env, p, incs[0]) == Follow then {TargetOf(p, incs[0])} else {}) + Targets(env, p, incs[1..])
  {
    var first := if OutcomeOf(env, p, incs[0]) == Follow then {TargetOf(p, incs[0])} else {};
    forall x
      ensures x in Targets(env, p, incs) <==> x in first + Targets(env, p, incs[1..])
    {
      if x in Targets(env, p, incs) {
        var i :| 0 <= i < |incs| && OutcomeOf(env, p, incs[i]) == Follow && TargetOf(p, incs[i]) == x;
        if i > 0 {
          assert incs[1..][i - 1] == incs[i];
        }
      }
      if x in Targets(env, p, incs[1..]) {
        var i :| 0 <= i < |incs[1..]| && OutcomeOf(env, p, incs[1..][i]) == Follow && TargetOf(p, incs[1..][i]) == x;
        assert incs[i + 1] == incs[1..][i];
      }
    }
  }

  // ----- visits --------------------------------------------------------------------------------

  /** The names that the proxies filed under these names have. */
  ghost function OwnNames(env: Env, ns: set<Name>): (out: set<Name>)
    requires ns <= env.proxies.Keys
  {
    set n | n in ns :: env.proxies[n].name
  }

  lemma {:induction false} ReachedAreNodes(g: Graph, n: Name, visited: set<Name>)
    requires Closed(g) && n in g
    ensures Reached(g, n, visited) <= g.Keys
    decreases g.Keys - visited
  {
    if n !in visited {
      forall q | q in g[n]
        ensures Reached(g, q, visited + {n}) <= g.Keys
      {
        ReachedAreNodes(g, q, visited + {n});
      }
    }
  }

  lemma ReachedFromAreNodes(g: Graph, starts: set<Name>, visited: set<Name>)
    requires Closed(g) && starts <= g.Keys
    ensures ReachedFrom(g, starts, visited) <= g.Keys
  {
    forall q | q in starts
      ensures Reached(g, q, visited) <= g.Keys
    {
      ReachedAreNodes(g, q, visited);
    }
  }

  /** computeRoutes visits what a walk over the route graph reaches, and takes the names of
      these proxies off the list. */
  lemma {:induction false} VisitsIsReached(env: Env, name: Name, visited: seq<Name>)
    requires name in env.proxies
    ensures Reached(RouteGraph(env), name, Seen(visited)) <= env.proxies.Keys
    ensures Visits(env, name, visited) == OwnNames(env, Reached(RouteGraph(env), name, Seen(visited)))
    decreases env.proxies.Keys - Seen(visited), 0, 0
  {
    var p, g := env.proxies[name], RouteGraph(env);
    ReachedAreNodes(g, name, Seen(visited));
    if name in visited {
    } else if IncludesIdentical(p.includes) {
      assert g[name] == {};
    } else {
      SeenGrows(env.proxies.Keys, visited, name);
      VisitsIncludesIsReached(env, p, p.includes, visited + [name]);
      assert g[name] == Targets(env, p, p.includes);
    }
  }

  lemma {:induction false} VisitsIncludesIsReached(env: Env, p: Proxy, incs: seq<Include>, visited: seq<Name>)
    ensures Targets(env, p, incs)
            + ReachedFrom(RouteGraph(env), Targets(env, p, incs), Seen(visited)) <= env.proxies.Keys
    ensures VisitsIncludes(env, p, incs, visited) ==
            OwnNames(env, Targets(env, p, incs) + ReachedFrom(RouteGraph(env), Targets(env, p, incs), Seen(visited)))
    decreases env.proxies.Keys - Seen(visited), 1, |incs|
  {
    ReachedFromAreNodes(RouteGraph(env), Targets(env, p, incs), Seen(visited));
    if incs != [] {
      TargetsStep(env, p, incs);
      VisitsIncludesIsReached(env, p, incs[1..], visited);
      if OutcomeOf(env, p, incs[0]) == Follow {
        VisitsIsReached(env, TargetOf(p, incs[0]), visited);
        OneMoreStart(env, TargetOf(p, incs[0]), Targets(env, p, incs[1..]), Seen(visited));
      }
    }
  }

  lemma OneMoreStart(env: Env, first: Name, rest: set<Name>, visited: set<Name>)
    requires first in env.proxies && rest <= env.proxies.Keys
    requires Reached(RouteGraph(env), first, visited) <= env.proxies.Keys
    requires rest + ReachedFrom(RouteGraph(env), rest, visited) <= env.proxies.Keys
    requires {first} + rest + ReachedFrom(RouteGraph(env), {first} + rest, visited) <= env.proxies.Keys
    ensures OwnNames(env, {first} + rest + ReachedFrom(RouteGraph(env), {first} + rest, visited)) ==
            OwnNames(env, Reached(RouteGraph(env), first, visited)) + {env.proxies[first].name}
            + OwnNames(env, rest + ReachedFrom(RouteGraph(env), rest, visited))
  {
    var g := RouteGraph(env);
    StartsUnion(g, first, rest, visited);
    OwnNamesOfThree(env, Reached(g, first, visited), first, rest + ReachedFrom(g, rest, visited));
  }

  lemma OwnNamesOfThree(env: Env, below: set<Name>, first: Name, others: set<Name>)
    requires below <= env.proxies.Keys && first in env.proxies && others <= env.proxies.Keys
    ensures OwnNames(env, below + {first} + others) ==
            OwnNames(env, below) + {env.proxies[first].name} + OwnNames(env, others)
  {
    OwnNamesUnion(env, below + {first}, others);
    OwnNamesUnion(env, below, {first});
    assert OwnNames(env, {first}) == {env.proxies[first].name};
  }

  lemma StartsUnion(g: Graph, first: Name, rest: set<Name>, visited: set<Name>)
    requires Closed(g) && first in g && rest <= g.Keys
    ensures {first} + rest + ReachedFrom(g, {first} + rest, visited) ==
            Reached(g, first, visited) + {first} + (rest + ReachedFrom(g, rest, visited))
  {
  }

  lemma OwnNamesUnion(env: Env, a: set<Name>, b: set<Name>)
    requires a <= env.proxies.Keys && b <= env.proxies.Keys
    ensures OwnNames(env, a + b) == OwnNames(env, a) + OwnNames(env, b)
  {
  }

  lemma {:induction false} TCPVisitsIsReached(env: Env, name: Name, visited: seq<Name>)
    requires name in env.proxies && name !in visited
    ensures TCPVisits(env, name, visited) == Reached(TCPGraph(env), name, Seen(visited))
    decreases env.proxies.Keys - Seen(visited)
  {
    var g, s := TCPGraph(env), TCPStepOf(env, env.proxies[name]);
    if s.TCPFollow? {
      SeenGrows(env.proxies.Keys, visited, name);
      assert g[name] == {s.target};
      assert ReachedFrom(g, {s.target}, Seen(visited + [name])) == Reached(g, s.target, Seen(visited + [name]));
      if s.target !in visited + [name] {
        TCPVisitsIsReached(env, s.target, visited + [name]);
      }
    }
  }
}
