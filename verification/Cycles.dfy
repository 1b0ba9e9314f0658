/** Include cycles: the walk reports exactly the proxies that it finds on its own path
    (internal/dag/httpproxy_processor.go). */
module Cycles {
  import opened Text
  import opened Kube
  import opened Conditions
  import opened Proxies
  import opened Compiler
  import opened IncludeGraph
  import opened Reachability

  /** Some commit of the list reports an include cycle on n. */
  ghost predicate ReportsCycle(cs: seq<Commit>, n: Name)
  {
    exists i :: 0 <= i < |cs| && cs[i].name == n && CYCLE in cs[i].issues
  }

  lemma ReportsConcat(a: seq<Commit>, b: seq<Commit>, n: Name)
    requires ReportsCycle(a, n) || ReportsCycle(b, n)
    ensures ReportsCycle(a + b, n)
  {
    if i :| 0 <= i < |a| && a[i].name == n && CYCLE in a[i].issues {
      assert (a + b)[i] == a[i];
    } else {
      var i :| 0 <= i < |b| && b[i].name == n && CYCLE in b[i].issues;
      assert (a + b)[|a| + i] == b[i];
    }
  }

  /** A proxy that the walk re-enters is committed with an error that says so. */
  lemma {:induction false} ReentryIsReported(env: Env, root: Root, name: Name, conds: seq<MatchCondition>,
                                             visited: seq<Name>, x: Name)
    requires name in env.proxies && name !in visited
    requires x in Reentered(RouteGraph(env), name, Seen(visited))
    ensures ReportsCycle(Commits(env, root, name, conds, visited), x)
    decreases env.proxies.Keys - Seen(visited), 0, 0
  {
    var p, g := env.proxies[name], RouteGraph(env);
    SeenGrows(env.proxies.Keys, visited, name);
    var q :| q in g[name] && x in Reentered(g, q, Seen(visited) + {name});
    ReentryBelow(env, root, p, p.includes, conds, visited + [name], q, x);
  }

  lemma {:induction false} ReentryBelow(env: Env, root: Root, p: Proxy, incs: seq<Include>, conds: seq<MatchCondition>,
                                        visited: seq<Name>, q: Name, x: Name)
    requires q in Targets(env, p, incs) && q in env.proxies
    requires x in Reentered(RouteGraph(env), q, Seen(visited))
    ensures ReportsCycle(CommitsIncludes(env, root, p, incs, conds, visited), x)
    decreases env.proxies.Keys - Seen(visited), 1, |incs|
  {
    TargetsStep(env, p, incs);
    var rest := CommitsIncludes(env, root, p, incs[1..], conds, visited);
    if OutcomeOf(env, p, incs[0]) == Follow {
      var target, below := TargetOf(p, incs[0]), conds + incs[0].conditions;
      var inner := Commits(env, root, target, below, visited);
      var own := Commit(target, OwnIssues(env, root, target, below, visited),
                        OwnWarnings(env, root, target, below, visited));
      if q == target {
        if q in visited {
          assert ReportsCycle([own], x) by { assert [own][0] == own; }
        } else {
          ReentryIsReported(env, root, q, below, visited, x);
        }
        ReportsConcat(inner, [own], x);
      } else {
        ReentryBelow(env, root, p, incs[1..], conds, visited, q, x);
      }
      ReportsConcat(inner + [own], rest, x);
    } else {
      ReentryBelow(env, root, p, incs[1..], conds, visited, q, x);
      ReportsConcat([], rest, x);
    }
  }

  // ----- nothing else is reported as a cycle ------------------------------------------------

  /** The outcomes of the checks that are given with a route say nothing of include cycles. */
  ghost predicate ChecksOthers(r: RouteSpec)
  {
    && r.headersCheck != Some(CYCLE) && r.policyCheck != Some(CYCLE)
    && forall i :: 0 <= i < |r.services| ==> r.services[i].tlsCheck != Some(CYCLE) && r.services[i].check != Some(CYCLE)
  }

  ghost predicate AllCheckOthers(env: Env)
  {
    forall n, j :: n in env.proxies && 0 <= j < |env.proxies[n].routes| ==> ChecksOthers(env.proxies[n].routes[j])
  }

  lemma {:induction false} ServicesReportOthers(env: Env, ns: string, refs: seq<ServiceRef>, acc: Clusters)
    requires CYCLE !in acc.issues
    requires forall i :: 0 <= i < |refs| ==> refs[i].tlsCheck != Some(CYCLE) && refs[i].check != Some(CYCLE)
    ensures CYCLE !in WithServices(env, ns, refs, acc).issues
  {
    if refs != [] && !acc.fatal {
      ServicesReportOthers(env, ns, refs[1..], WithService(env, ns, refs[0], acc));
    }
  }

  lemma BuiltReportsOthers(env: Env, root: Root, ns: string, conds: seq<MatchCondition>, r: RouteSpec)
    requires ChecksOthers(r)
    ensures CYCLE !in BuildRoute(env, root, ns, conds, r).issues
  {
    ServicesReportOthers(env, ns, r.services, NO_CLUSTERS);
  }

  lemma {:induction false} RoutesReportOthers(env: Env, root: Root, ns: string, conds: seq<MatchCondition>,
                                              rs: seq<RouteSpec>)
    requires forall j :: 0 <= j < |rs| ==> ChecksOthers(rs[j])
    ensures CYCLE !in RouteIssues(env, root, ns, conds, rs)
  {
    if rs != [] {
      BuiltReportsOthers(env, root, ns, conds, rs[0]);
      RoutesReportOthers(env, root, ns, conds, rs[1..]);
    }
  }

  lemma {:induction false} IncludesReportOthers(env: Env, p: Proxy, incs: seq<Include>)
    ensures CYCLE !in IncludeIssues(env, p, incs)
  {
    if incs != [] {
      IncludesReportOthers(env, p, incs[1..]);
    }
  }

  lemma CycleMeansVisited(env: Env, root: Root, name: Name, conds: seq<MatchCondition>, visited: seq<Name>)
    requires AllCheckOthers(env) && name in env.proxies
    ensures CYCLE in OwnIssues(env, root, name, conds, visited) <==> name in visited
  {
    var p := env.proxies[name];
    IncludesReportOthers(env, p, p.includes);
    RoutesReportOthers(env, root, p.name.namespace, conds, p.routes);
  }

  lemma ReportsSplit(a: seq<Commit>, b: seq<Commit>, n: Name)
    requires ReportsCycle(a + b, n)
    ensures ReportsCycle(a, n) || ReportsCycle(b, n)
  {
    var i :| 0 <= i < |a + b| && (a + b)[i].name == n && CYCLE in (a + b)[i].issues;
    if i < |a| {
      assert a[i].name == n;
    } else {
      assert b[i - |a|].name == n;
    }
  }

  lemma {:induction false} ReportIsReentry(env: Env, root: Root, name: Name, conds: seq<MatchCondition>,
                                           visited: seq<Name>, x: Name)
    requires AllCheckOthers(env) && name in env.proxies && name !in visited
    requires ReportsCycle(Commits(env, root, name, conds, visited), x)
    ensures x in Reentered(RouteGraph(env), name, Seen(visited))
    decreases env.proxies.Keys - Seen(visited), 0, 0
  {
    var p := env.proxies[name];
    SeenGrows(env.proxies.Keys, visited, name);
    var q := ReportIsBelow(env, root, p, p.includes, conds, visited + [name], x);
    assert q in RouteGraph(env)[name];
  }

  lemma {:induction false} ReportIsBelow(env: Env, root: Root, p: Proxy, incs: seq<Include>,
                                         conds: seq<MatchCondition>, visited: seq<Name>, x: Name)
    returns (q: Name)
    requires AllCheckOthers(env) && ReportsCycle(CommitsIncludes(env, root, p, incs, conds, visited), x)
    ensures q in Targets(env, p, incs) && q in env.proxies && x in Reentered(RouteGraph(env), q, Seen(visited))
    decreases env.proxies.Keys - Seen(visited), 1, |incs|
  {
    TargetsStep(env, p, incs);
    var rest := CommitsIncludes(env, root, p, incs[1..], conds, visited);
    if ReportsCycle(rest, x) {
      q := ReportIsBelow(env, root, p, incs[1..], conds, visited, x);
    } else {
      q := ReportIsFirst(env, root, p, incs, conds, visited, x);
      if q !in visited {
        ReportIsReentry(env, root, q, conds + incs[0].conditions, visited, x);
      }
    }
  }

  lemma ReportIsFirst(env: Env, root: Root, p: Proxy, incs: seq<Include>, conds: seq<MatchCondition>,
                      visited: seq<Name>, x: Name)
    returns (q: Name)
    requires AllCheckOthers(env) && ReportsCycle(CommitsIncludes(env, root, p, incs, conds, visited), x)
    requires !ReportsCycle(CommitsIncludes(env, root, p, incs[1..], conds, visited), x)
    ensures OutcomeOf(env, p, incs[0]) == Follow && q == TargetOf(p, incs[0])
    ensures if q in visited then x == q
            else ReportsCycle(Commits(env, root, q, conds + incs[0].conditions, visited), x)
  {
    var rest := CommitsIncludes(env, root, p, incs[1..], conds, visited);
    assert [] + rest == rest;
    q := TargetOf(p, incs[0]);
    if OutcomeOf(env, p, incs[0]) == Follow {
      var below := conds + incs[0].conditions;
      var inner := Commits(env, root, q, below, visited);
      var own := Commit(q, OwnIssues(env, root, q, below, visited), OwnWarnings(env, root, q, below, visited));
      ReportsSplit(inner + [own], rest, x);
      ReportsSplit(inner, [own], x);
      CycleMeansVisited(env, root, q, below, visited);
    }
  }

  /** The walk from a root reports a cycle on a proxy exactly when the proxy is at the end of
      a path of includes that is without repetition up to its last step, and that step goes
      back to a proxy on it. */
  lemma CyclesAreReportedExactly(env: Env, root: Root, name: Name, x: Name)
    requires AllCheckOthers(env) && name in env.proxies
    ensures ReportsCycle(Commits(env, root, name, [], []), x) <==> exists p :: Lasso(RouteGraph(env), p, name, {}, x)
  {
    assert Seen([]) == {};
    ReenteredIsLasso(RouteGraph(env), name, x);
    if x in Reentered(RouteGraph(env), name, {}) {
      ReentryIsReported(env, root, name, [], [], x);
    }
    if ReportsCycle(Commits(env, root, name, [], []), x) {
      ReportIsReentry(env, root, name, [], [], x);
    }
  }
}
