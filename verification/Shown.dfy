/** What the status of a proxy says when a build is over, for those that were not compiled: orphans, and
    roots that share a host (internal/dag/httpproxy_processor.go). */
module Shown {
  import opened Kube
  import opened Conditions
  import opened Issues
  import opened Status
  import opened Proxies
  import opened Compiler
  import opened Builds

  // ----- commits are for visited proxies -----------------------------------------------------------

  /** The commit is for a proxy without a host whose name is among these. */
  ghost predicate IsForOne(env: Env, c: Commit, ns: set<Name>)
  {
    c.name in env.proxies && env.proxies[c.name].vhost.None? && env.proxies[c.name].name in ns
  }

  ghost predicate AreFor(env: Env, cs: seq<Commit>, ns: set<Name>)
  {
    forall c :: c in cs ==> IsForOne(env, c, ns)
  }

  lemma AreForMore(env: Env, cs: seq<Commit>, ns: set<Name>, more: set<Name>)
    requires AreFor(env, cs, ns) && ns <= more
    ensures AreFor(env, cs, more)
  {
  }

  lemma AreForBoth(env: Env, a: seq<Commit>, b: seq<Commit>, ns: set<Name>)
    requires AreFor(env, a, ns) && AreFor(env, b, ns)
    ensures AreFor(env, a + b, ns)
  {
    forall c | c in a + b
      ensures IsForOne(env, c, ns)
    {
      assert c in a || c in b;
    }
  }

  lemma {:induction false} CommitsAreVisited(env: Env, root: Root, name: Name, conds: seq<MatchCondition>,
                                             visited: seq<Name>)
    requires name in env.proxies
    ensures AreFor(env, Commits(env, root, name, conds, visited), Visits(env, name, visited))
    decreases env.proxies.Keys - Seen(visited), 0, 0
  {
    var p := env.proxies[name];
    if name !in visited && !IncludesIdentical(p.includes) {
      SeenGrows(env.proxies.Keys, visited, name);
      CommitsBelowAreVisited(env, root, p, p.includes, conds, visited + [name]);
    }
  }

  lemma {:induction false} CommitsBelowAreVisited(env: Env, root: Root, p: Proxy, incs: seq<Include>,
                                                  conds: seq<MatchCondition>, visited: seq<Name>)
    ensures AreFor(env, CommitsIncludes(env, root, p, incs, conds, visited), VisitsIncludes(env, p, incs, visited))
    decreases env.proxies.Keys - Seen(visited), 1, |incs|
  {
    if incs != [] {
      CommitsBelowAreVisited(env, root, p, incs[1..], conds, visited);
      var rest, ns := CommitsIncludes(env, root, p, incs[1..], conds, visited), VisitsIncludes(env, p, incs, visited);
      AreForMore(env, rest, VisitsIncludes(env, p, incs[1..], visited), ns);
      if OutcomeOf(env, p, incs[0]) == Follow {
        var target, below := TargetOf(p, incs[0]), conds + incs[0].conditions;
        CommitsAreVisited(env, root, target, below, visited);
        var own := Commit(target, OwnIssues(env, root, target, below, visited),
                          OwnWarnings(env, root, target, below, visited));
        AreForMore(env, Commits(env, root, target, below, visited), Visits(env, target, visited), ns);
        assert IsForOne(env, own, ns);
        AreForBoth(env, Commits(env, root, target, below, visited), [own], ns);
        AreForBoth(env, Commits(env, root, target, below, visited) + [own], rest, ns);
      } else {
        assert [] + rest == rest;
      }
    }
  }

  lemma {:induction false} TCPCommitsAreVisited(env: Env, name: Name, visited: seq<Name>, c: Commit)
    requires name in env.proxies && name !in visited && c in TCPCommits(env, name, visited)
    ensures c.name in env.proxies && env.proxies[c.name].vhost.None? && c.name in TCPVisits(env, name, visited)
    decreases env.proxies.Keys - Seen(visited)
  {
    var step := TCPStepOf(env, env.proxies[name]);
    if step.TCPFollow? && step.target !in visited + [name] {
      SeenGrows(env.proxies.Keys, visited, name);
      if c in TCPCommits(env, step.target, visited + [name]) {
        TCPCommitsAreVisited(env, step.target, visited + [name], c);
      }
    }
  }

  /** Apart from its own, the commits made while a root is processed are for proxies without a host
      that it takes off the list of orphans. */
  lemma CommitsFromAreVisited(env: Env, r: Name, c: Commit)
    requires IsRootProxy(env, r) && c in CommitsFrom(env, r) && c.name != r
    ensures c.name in env.proxies && env.proxies[c.name].vhost.None?
    ensures c.name in VisitedFrom(env, r) || env.proxies[c.name].name in VisitedFrom(env, r)
  {
    var p := Process(env, r);
    var tcp := if p.walksTCP then TCPCommits(env, r, []) else [];
    var routes := if p.walksRoutes then Commits(env, RootOf(env.proxies[r]), r, [], []) else [];
    assert CommitsFrom(env, r) == tcp + routes + [Commit(r, p.issues, p.warnings)];
    assert c in tcp || c in routes;
    if c in tcp {
      TCPCommitsAreVisited(env, r, [], c);
    } else {
      CommitsAreVisited(env, RootOf(env.proxies[r]), r, [], []);
      assert IsForOne(env, c, Visits(env, r, []));
    }
  }

  // ----- orphans and duplicates ----------------------------------------------------------------------

  lemma MadeForOrphan(env: Env, c: Commit)
    requires WellKeyed(env) && IsMade(env, c) && c.name in Orphans(env)
    ensures c.issues == [] || c.issues == [ORPHAN]
  {
    if r :| IsProcessed(env, r) && c in CommitsFrom(env, r) {
      if c.name != r {
        CommitsFromAreVisited(env, r, c);
      }
    }
  }

  lemma MadeForDuplicate(env: Env, c: Commit)
    requires IsMade(env, c) && IsRootProxy(env, c.name) && !HostIsUnique(env, c.name)
    ensures c.issues == [DUPLICATE_VHOST]
  {
    if r :| IsProcessed(env, r) && c in CommitsFrom(env, r) {
      if c.name != r {
        CommitsFromAreVisited(env, r, c);
      }
    }
  }

  /** If the commits of an object that have an error all have this one, it is what the object shows. */
  lemma OneErrorIsShown(env: Env, cs: seq<Commit>, n: Name, e: Issue)
    requires (forall i :: 0 <= i < |cs| ==> cs[i].name in env.proxies) && Blames(cs, n)
    requires forall i :: 0 <= i < |cs| && cs[i].name == n ==> cs[i].issues == [] || cs[i].issues == [e]
    ensures n in ShownAll(env, map[], cs)
    ensures ShownAll(env, map[], cs)[n].errors == [SubCondition(e.kind, e.reason, "")]
  {
    OneErrorIsEnough(env, cs, n);
    BlamedIsMentioned(cs, n);
    LastOneIsShown(env, cs, n);
    var i: nat :| IsShown(cs, n, i) && ShownAll(env, map[], cs)[n] == ConditionOf(env, cs[i]);
    CommitCarries(env, cs[i]);
  }

  lemma TraceIsForProxies(env: Env, cs: seq<Commit>)
    requires IsTrace(env, cs)
    ensures forall i :: 0 <= i < |cs| ==> cs[i].name in env.proxies
  {
    forall i | 0 <= i < |cs|
      ensures cs[i].name in env.proxies
    {
      MadeForProxies(env, cs[i]);
    }
  }

  /** Of objects with namespaces an orphan shows that it is one, and no other error. */
  lemma OrphansSayWhy(env: Env, cs: seq<Commit>, n: Name)
    requires WellKeyed(env) && IsTrace(env, cs) && n in Orphans(env)
    ensures forall i :: 0 <= i < |cs| ==> cs[i].name in env.proxies
    ensures n in ShownAll(env, map[], cs)
    ensures ShownAll(env, map[], cs)[n].errors == [SubCondition(OrphanedError, Orphaned, "")]
  {
    TraceIsForProxies(env, cs);
    forall i | 0 <= i < |cs| && cs[i].name == n
      ensures cs[i].issues == [] || cs[i].issues == [ORPHAN]
    {
      MadeForOrphan(env, cs[i]);
    }
    var c := Commit(n, [ORPHAN], []);
    assert IsMade(env, c);
    var k :| 0 <= k < |cs| && cs[k] == c;
    assert Blames(cs, n);
    OneErrorIsShown(env, cs, n, ORPHAN);
  }

  /** Roots that share a host, the case of letters aside, all show that, and no other error. */
  lemma DuplicatesSayWhy(env: Env, cs: seq<Commit>, n: Name)
    requires IsTrace(env, cs) && IsRootProxy(env, n) && !HostIsUnique(env, n)
    ensures forall i :: 0 <= i < |cs| ==> cs[i].name in env.proxies
    ensures n in ShownAll(env, map[], cs)
    ensures ShownAll(env, map[], cs)[n].errors == [SubCondition(VirtualHostError, DuplicateVhost, "")]
  {
    TraceIsForProxies(env, cs);
    forall i | 0 <= i < |cs| && cs[i].name == n
      ensures cs[i].issues == [] || cs[i].issues == [DUPLICATE_VHOST]
    {
      MadeForDuplicate(env, cs[i]);
    }
    var c := Commit(n, [DUPLICATE_VHOST], []);
    assert IsMade(env, c);
    var k :| 0 <= k < |cs| && cs[k] == c;
    assert Blames(cs, n);
    OneErrorIsShown(env, cs, n, DUPLICATE_VHOST);
  }
}
