/** A whole build (HTTPProxyProcessor.Run in internal/dag/httpproxy_processor.go): which
    roots are processed, what each gives, which proxies end as orphans, and which end
    as invalid. */
module Builds {
  import opened Text
  import opened Dag
  import opened Kube
  import opened Conditions
  import opened Status
  import opened Issues
  import opened Proxies
  import opened Compiler
  import opened IncludeGraph
  import opened Reachability
  import opened Cycles

  // ----- roots ------------------------------------------------------------------------------

  predicate IsRootProxy(env: Env, n: Name)
  {
    n in env.proxies && env.proxies[n].vhost.Some?
  }

  /** No other root uses the host, compared without case. */
  ghost predicate HostIsUnique(env: Env, n: Name)
    requires IsRootProxy(env, n)
  {
    forall m :: IsRootProxy(env, m) && m != n ==>
      ToLower(env.proxies[m].vhost.value.fqdn) != ToLower(env.proxies[n].vhost.value.fqdn)
  }

  predicate RootAllowed(env: Env, ns: string)
  {
    env.rootNamespaces == [] || ns in env.rootNamespaces
  }

  /** The checks before any walk, in order. */
  function GateIssue(env: Env, p: Proxy): (issue: Option<Issue>)
    requires p.vhost.Some?
  {
    var vh := p.vhost.value;
    if IsBlank(vh.fqdn) then Some(Issue(VirtualHostError, FQDNNotSpecified))
    else if !RootAllowed(env, p.name.namespace) then Some(Issue(RootNamespaceError, RootProxyNotAllowedInNamespace))
    else if p.routes == [] && p.includes == [] && p.tcp.None? then Some(Issue(SpecError, NothingDefined))
    else None
  }

  const TLS_MISSING := Issue(TCPProxyError, TLSMustBeConfigured)
  const DUPLICATE_VHOST := Issue(VirtualHostError, DuplicateVhost)
  const ORPHAN := Issue(OrphanedError, Orphaned)

  /** What a root comes to: its errors and warnings, which walks were made from it, the TCP
      proxy and the routes that its host is given. */
  datatype Processed = Processed(
    issues: seq<Issue>, warnings: seq<Issue>,
    walksTCP: bool, walksRoutes: bool,
    tcp: Option<seq<Cluster>>, routes: Option<seq<Route>>)

  function Refused(issues: seq<Issue>): (r: Processed)
  {
    Processed(issues, [], false, false, None, None)
  }

  function RootOf(p: Proxy): (r: Root)
    requires p.vhost.Some?
  {
    Root(p.vhost.value.fqdn, p.vhost.value.tls.Some?)
  }

  /** The part of computeHTTPProxy after the TLS checks, given the errors so far. */
  ghost function Walked(env: Env, n: Name, soft: seq<Issue>): (r: Processed)
    requires IsRootProxy(env, n)
  {
    var p := env.proxies[n];
    var vh := p.vhost.value;
    if p.tcp.Some? && vh.tls.None? then Refused(soft + [TLS_MISSING])
    else
      var tcp := if p.tcp.Some? then TCPWalk(env, n, []) else TCPResult(true, None);
      var tcpIssues := if p.tcp.Some? then TCPIssues(env, n, []) else [];
      var tcpWarnings := TCPWarnings(p);
      if !tcp.ok then Processed(soft + tcpIssues, tcpWarnings, true, false, None, None)
      else
        var routes := Emit(env, RootOf(p), n, [], []);
        var issues := soft + tcpIssues + OwnIssues(env, RootOf(p), n, [], []);
        var warnings := tcpWarnings + OwnWarnings(env, RootOf(p), n, [], []);
        if vh.laterCheck.Some?
        then Processed(issues + [vh.laterCheck.value], warnings, p.tcp.Some?, true, tcp.clusters, None)
        else Processed(issues, warnings, p.tcp.Some?, true, tcp.clusters, Some(routes))
  }

  ghost function Process(env: Env, n: Name): (r: Processed)
    requires IsRootProxy(env, n)
  {
    var p := env.proxies[n];
    var gate := GateIssue(env, p);
    if gate.Some? then Refused([gate.value])
    else
      var tls := p.vhost.value.tls;
      var soft := if tls.Some? then tls.value.soft else [];
      if tls.Some? && tls.value.fatal.Some? then Refused(soft + [tls.value.fatal.value])
      else Walked(env, n, soft)
  }

  /** Roots that computeHTTPProxy is called for: those with a host of their own. */
  ghost predicate IsProcessed(env: Env, n: Name)
  {
    IsRootProxy(env, n) && HostIsUnique(env, n)
  }

  ghost predicate WalksRoutesFrom(env: Env, n: Name)
  {
    IsProcessed(env, n) && Process(env, n).walksRoutes
  }

  ghost predicate WalksTCPFrom(env: Env, n: Name)
  {
    IsProcessed(env, n) && Process(env, n).walksTCP
  }

  // ----- orphans --------------------------------------------------------------------------------

  /** What the processing of one root takes off the list of orphans. */
  ghost function VisitedFrom(env: Env, n: Name): (ns: set<Name>)
    requires IsRootProxy(env, n)
  {
    (if Process(env, n).walksTCP then TCPVisits(env, n, []) else {})
    + (if Process(env, n).walksRoutes then Visits(env, n, []) else {})
  }

  /** The proxies that are left on the list when all roots have been processed. */
  ghost function Orphans(env: Env): (ns: set<Name>)
  {
    set n | n in env.proxies && !IsRootProxy(env, n)
            && forall r :: IsProcessed(env, r) ==> n !in VisitedFrom(env, r)
  }

  /** A path over the includes of routes, of any shape, leads from a root that walks them to
      a proxy with this name. */
  ghost predicate RoutesLeadTo(env: Env, n: Name)
  {
    exists r, p, m :: WalksRoutesFrom(env, r) && Leads(RouteGraph(env), p, r, m) && env.proxies[m].name == n
  }

  ghost predicate TCPLeadsTo(env: Env, n: Name)
  {
    exists r, p :: WalksTCPFrom(env, r) && Leads(TCPGraph(env), p, r, n)
  }

  /** Orphans are exactly the proxies without a host that no path leads to; for includes of
      routes, that no path leads to by their own name. */
  lemma OrphansExactly(env: Env, n: Name)
    ensures n in Orphans(env) <==>
            n in env.proxies && !IsRootProxy(env, n) && !RoutesLeadTo(env, n) && !TCPLeadsTo(env, n)
  {
    forall r | IsProcessed(env, r)
      ensures n in VisitedFrom(env, r) <==>
              || (Process(env, r).walksRoutes && exists p,
                  m :: Leads(RouteGraph(env), p, r, m) && env.proxies[m].name == n)
              || (Process(env, r).walksTCP && exists p :: Leads(TCPGraph(env), p, r, n))
    {
      assert Seen([]) == {};
      VisitsByPaths(env, r, n);
      TCPVisitsIsReached(env, r, []);
      ReachedIsReachable(TCPGraph(env), r, n);
    }
  }

  lemma VisitsByPaths(env: Env, r: Name, n: Name)
    requires r in env.proxies
    ensures n in Visits(env, r, []) <==> exists p, m :: Leads(RouteGraph(env), p, r, m) && env.proxies[m].name == n
  {
    assert Seen([]) == {};
    VisitsIsReached(env, r, []);
    forall m
      ensures m in Reached(RouteGraph(env), r, {}) <==> exists p :: Leads(RouteGraph(env), p, r, m)
    {
      ReachedIsReachable(RouteGraph(env), r, m);
    }
  }

  /** So, of proxies with namespaces, orphans are exactly those without a host that no
      processed root reaches, over the includes of routes or over those of TCP proxies, by
      a path of any shape. */
  lemma OrphansAreUnreachable(env: Env, n: Name)
    requires WellKeyed(env)
    ensures n in Orphans(env) <==>
            && n in env.proxies && !IsRootProxy(env, n)
            && (forall r, p :: WalksRoutesFrom(env, r) ==> !Leads(RouteGraph(env), p, r, n))
            && (forall r, p :: WalksTCPFrom(env, r) ==> !Leads(TCPGraph(env), p, r, n))
  {
    OrphansExactly(env, n);
    if RoutesLeadTo(env, n) {
      var r, p, m :| WalksRoutesFrom(env, r) && Leads(RouteGraph(env), p, r, m) && env.proxies[m].name == n;
      assert m == n;
    }
    if r, p :| WalksRoutesFrom(env, r) && Leads(RouteGraph(env), p, r, n) {
      assert env.proxies[n].name == n;
      assert RoutesLeadTo(env, n);
    }
  }

  /** Without a namespace a proxy that only routes include stays an orphan: it is listed
      under the default namespace and taken off under the empty one. */
  lemma NoNamespaceStaysOrphan(env: Env, n: Name)
    requires Filed(env) && n in env.proxies && !IsRootProxy(env, n) && !TCPLeadsTo(env, n)
    requires env.proxies[n].name.namespace == ""
    ensures n in Orphans(env)
  {
    OrphansExactly(env, n);
    assert forall m :: m in env.proxies ==> env.proxies[m].name != n;
  }

  // ----- status -----------------------------------------------------------------------------------

  /** What the cache shows of each object: its committed Valid condition. */
  type View = map<Name, DetailedCondition>

  function WithIssues(dc: DetailedCondition, issues: seq<Issue>): (out: DetailedCondition)
  {
    if issues == [] then dc
    else WithError(WithIssues(dc, issues[..|issues| - 1]), issues[|issues| - 1].kind, issues[|issues| - 1].reason, "")
  }

  function WithWarnings(dc: DetailedCondition, warnings: seq<Issue>): (out: DetailedCondition)
  {
    if warnings == [] then dc
    else WithWarning(WithWarnings(dc, warnings[..|warnings| - 1]),
                     warnings[|warnings| - 1].kind, warnings[|warnings| - 1].reason, "")
  }

  lemma {:induction false} IssuesDecideStatus(dc: DetailedCondition, issues: seq<Issue>)
    requires dc.kind == VALID && StatusExact(dc)
    ensures var out := WithIssues(dc, issues);
            && out.kind == VALID && StatusExact(out)
            && |out.errors| == |dc.errors| + |issues|
            && out.warnings == dc.warnings && out.observedGeneration == dc.observedGeneration
  {
    if issues != [] {
      IssuesDecideStatus(dc, issues[..|issues| - 1]);
    }
  }

  lemma {:induction false} WarningsChangeNothing(dc: DetailedCondition, warnings: seq<Issue>)
    ensures WithWarnings(dc, warnings) == dc.(warnings := WithWarnings(dc, warnings).warnings)
  {
    if warnings != [] {
      WarningsChangeNothing(dc, warnings[..|warnings| - 1]);
    }
  }

  /** The condition that a commit carries. */
  ghost function ConditionOf(env: Env, c: Commit): (dc: DetailedCondition)
    requires c.name in env.proxies
  {
    WithWarnings(WithIssues(NewCondition(VALID, env.proxies[c.name].generation), c.issues), c.warnings)
  }

  lemma CommitDecidesStatus(env: Env, c: Commit)
    requires c.name in env.proxies
    ensures ConditionOf(env, c).kind == VALID && StatusExact(ConditionOf(env, c))
    ensures ConditionOf(env, c).status == if c.issues == [] then ConditionTrue else ConditionFalse
  {
    var dc := NewCondition(VALID, env.proxies[c.name].generation);
    IssuesDecideStatus(dc, c.issues);
    WarningsChangeNothing(WithIssues(dc, c.issues), c.warnings);
  }

  /** A commit, as the view sees it: valid does not replace invalid. */
  ghost function Shown(view: View, n: Name, dc: DetailedCondition): (view': View)
  {
    if n in view && view[n].status == ConditionFalse && dc.status == ConditionTrue then view else view[n := dc]
  }

  ghost function ShownAll(env: Env, view: View, cs: seq<Commit>): (view': View)
    requires forall i :: 0 <= i < |cs| ==> cs[i].name in env.proxies
  {
    if cs == [] then view
    else
      var n := |cs| - 1;
      Shown(ShownAll(env, view, cs[..n]), cs[n].name, ConditionOf(env, cs[n]))
  }

  lemma {:induction false} ShownAllConcat(env: Env, view: View, a: seq<Commit>, b: seq<Commit>)
    requires forall i :: 0 <= i < |a| ==> a[i].name in env.proxies
    requires forall i :: 0 <= i < |b| ==> b[i].name in env.proxies
    ensures ShownAll(env, view, a + b) == ShownAll(env, ShownAll(env, view, a), b)
  {
    if b == [] {
      assert a + b == a;
    } else {
      var front, c := b[..|b| - 1], b[|b| - 1];
      ShownAllConcat(env, view, a, front);
      assert (a + b)[..|a + b| - 1] == a + front && (a + b)[|a + b| - 1] == c;
    }
  }

  /** A commit of the list gives n an error. */
  ghost predicate Blames(cs: seq<Commit>, n: Name)
  {
    exists i :: 0 <= i < |cs| && cs[i].name == n && cs[i].issues != []
  }

  ghost predicate Mentions(cs: seq<Commit>, n: Name)
  {
    exists i :: 0 <= i < |cs| && cs[i].name == n
  }

  /** Whatever the order of the commits: an object is shown as invalid exactly when one of
      its commits has an error, and as valid exactly when it has commits and none does. */
  lemma {:induction false} OneErrorIsEnough(env: Env, cs: seq<Commit>, n: Name)
    requires forall i :: 0 <= i < |cs| ==> cs[i].name in env.proxies
    ensures var view := ShownAll(env, map[], cs);
            && (n in view <==> Mentions(cs, n))
            && (n in view ==> view[n].status == if Blames(cs, n) then ConditionFalse else ConditionTrue)
            && (n in view ==> view[n].kind == VALID && StatusExact(view[n]))
  {
    if cs != [] {
      var k := |cs| - 1;
      var front, c := cs[..k], cs[k];
      OneErrorIsEnough(env, front, n);
      CommitDecidesStatus(env, c);
      assert cs == front + [c];
      MentionsSnoc(front, c, n);
      OneMoreShown(ShownAll(env, map[], front), c.name, ConditionOf(env, c), n, Blames(front, n), c.issues != []);
    }
  }

  lemma OneMoreShown(view: View, m: Name, dc: DetailedCondition, n: Name, blamed: bool, bad: bool)
    requires dc.status == (if bad then ConditionFalse else ConditionTrue) && (blamed ==> n in view)
    requires n in view ==> view[n].status == if blamed then ConditionFalse else ConditionTrue
    ensures var view' := Shown(view, m, dc);
            && (n in view' <==> n in view || m == n)
            && (n in view' ==> view'[n] == dc || (n in view && view'[n] == view[n]))
            && (n in view' ==> view'[n].status == if blamed || (m == n && bad) then ConditionFalse else ConditionTrue)
  {
  }

  lemma MentionsSnoc(front: seq<Commit>, c: Commit, n: Name)
    ensures Mentions(front + [c], n) <==> Mentions(front, n) || c.name == n
    ensures Blames(front + [c], n) <==> Blames(front, n) || (c.name == n && c.issues != [])
  {
    var cs := front + [c];
    assert cs[|front|] == c;
    if i :| 0 <= i < |front| && front[i].name == n {
      assert cs[i] == front[i];
    }
    if i :| 0 <= i < |front| && front[i].name == n && front[i].issues != [] {
      assert cs[i] == front[i];
    }
  }

  // ----- which commit is shown -------------------------------------------------------------------

  /** Commit i is the last of the object that has an error, or, if none has, its last. */
  ghost predicate IsShown(cs: seq<Commit>, n: Name, i: nat)
  {
    && i < |cs| && cs[i].name == n
    && if Blames(cs, n) then cs[i].issues != [] && forall j :: i < j < |cs| && cs[j].name == n ==> cs[j].issues == []
       else forall j :: i < j < |cs| ==> cs[j].name != n
  }

  lemma ShownStays(front: seq<Commit>, c: Commit, n: Name, i: nat)
    requires IsShown(front, n, i) && (c.name == n ==> Blames(front, n) && c.issues == [])
    ensures IsShown(front + [c], n, i) && (front + [c])[i] == front[i]
  {
    MentionsSnoc(front, c, n);
    var cs := front + [c];
    assert forall j :: 0 <= j < |front| ==> cs[j] == front[j];
  }

  lemma LastIsShown(front: seq<Commit>, c: Commit, n: Name)
    requires c.name == n && !(Blames(front, n) && c.issues == [])
    ensures IsShown(front + [c], n, |front|)
  {
    MentionsSnoc(front, c, n);
  }

  /** What is shown of an object is what that commit carries. */
  lemma {:induction false} LastOneIsShown(env: Env, cs: seq<Commit>, n: Name)
    requires forall i :: 0 <= i < |cs| ==> cs[i].name in env.proxies
    requires n in ShownAll(env, map[], cs)
    ensures exists i: nat :: IsShown(cs, n, i) && ShownAll(env, map[], cs)[n] == ConditionOf(env, cs[i])
  {
    var k: nat := |cs| - 1;
    var front, c := cs[..k], cs[k];
    assert cs == front + [c];
    CommitDecidesStatus(env, c);
    OneErrorIsEnough(env, front, n);
    var view := ShownAll(env, map[], front);
    if c.name == n && !(Blames(front, n) && c.issues == []) {
      LastIsShown(front, c, n);
    } else {
      if c.name == n {
        BlamedIsMentioned(front, n);
      }
      LastOneIsShown(env, front, n);
      var i: nat :| IsShown(front, n, i) && view[n] == ConditionOf(env, front[i]);
      ShownStays(front, c, n, i);
    }
  }

  lemma BlamedIsMentioned(cs: seq<Commit>, n: Name)
    requires Blames(cs, n)
    ensures Mentions(cs, n)
  {
  }

  function SubConditions(issues: seq<Issue>): (out: seq<SubCondition>)
    ensures |out| == |issues|
    ensures forall k :: 0 <= k < |issues| ==> out[k] == SubCondition(issues[k].kind, issues[k].reason, "")
  {
    seq(|issues|, k requires 0 <= k < |issues| => SubCondition(issues[k].kind, issues[k].reason, ""))
  }

  lemma {:induction false} IssuesAreCarried(dc: DetailedCondition, issues: seq<Issue>)
    requires dc.kind == VALID
    ensures WithIssues(dc, issues) ==
            if issues == [] then dc
            else dc.(status := ConditionFalse, reason := ERROR_PRESENT, message := SEE_ERRORS,
                     errors := dc.errors + SubConditions(issues))
  {
    if issues != [] {
      var front, last := issues[..|issues| - 1], issues[|issues| - 1];
      IssuesAreCarried(dc, front);
      assert SubConditions(issues) == SubConditions(front) + [SubCondition(last.kind, last.reason, "")];
      Regroup(dc.errors, SubConditions(front), [SubCondition(last.kind, last.reason, "")]);
      assert front == [] ==> dc.errors + [] == dc.errors;
    }
  }

  lemma {:induction false} WarningsAreCarried(dc: DetailedCondition, warnings: seq<Issue>)
    ensures WithWarnings(dc, warnings) == dc.(warnings := dc.warnings + SubConditions(warnings))
  {
    if warnings == [] {
      assert dc.warnings + [] == dc.warnings;
    } else {
      var front, last := warnings[..|warnings| - 1], warnings[|warnings| - 1];
      WarningsAreCarried(dc, front);
      assert SubConditions(warnings) == SubConditions(front) + [SubCondition(last.kind, last.reason, "")];
      Regroup(dc.warnings, SubConditions(front), [SubCondition(last.kind, last.reason, "")]);
    }
  }

  lemma AllIsCarried(dc: DetailedCondition, issues: seq<Issue>, warnings: seq<Issue>)
    requires dc.kind == VALID && dc.errors == [] && dc.warnings == []
    ensures var out := WithWarnings(WithIssues(dc, issues), warnings);
            && out.kind == VALID && out.observedGeneration == dc.observedGeneration
            && out.errors == SubConditions(issues) && out.warnings == SubConditions(warnings)
            && (issues == [] ==> out.status == dc.status && out.reason == dc.reason && out.message == dc.message)
            && (issues != [] ==>
                  out.status == ConditionFalse && out.reason == ERROR_PRESENT && out.message == SEE_ERRORS)
  {
    var mid := WithIssues(dc, issues);
    IssuesAreCarried(dc, issues);
    NothingInFront(dc.errors, SubConditions(issues));
    assert mid.warnings == [];
    WarningsAreCarried(mid, warnings);
    NothingInFront(mid.warnings, SubConditions(warnings));
  }

  lemma NothingInFront(a: seq<SubCondition>, b: seq<SubCondition>)
    requires a == []
    ensures a + b == b
  {
  }

  lemma NewIsValid(generation: int)
    ensures var dc := NewCondition(VALID, generation);
            && dc.kind == VALID && dc.status == ConditionTrue && dc.reason == "Valid" && dc.message == "Valid HTTPProxy"
            && dc.observedGeneration == generation && dc.errors == [] && dc.warnings == []
  {
  }

  /** A commit carries a Valid condition of the object's generation with exactly its errors and
      warnings, in order. */
  lemma CommitCarries(env: Env, c: Commit)
    requires c.name in env.proxies
    ensures var dc := ConditionOf(env, c);
            && dc.kind == VALID && dc.observedGeneration == env.proxies[c.name].generation
            && dc.errors == SubConditions(c.issues) && dc.warnings == SubConditions(c.warnings)
            && (c.issues == [] ==>
                  dc.status == ConditionTrue && dc.reason == "Valid" && dc.message == "Valid HTTPProxy")
            && (c.issues != [] ==>
                  dc.status == ConditionFalse && dc.reason == ERROR_PRESENT && dc.message == SEE_ERRORS)
  {
    NewIsValid(env.proxies[c.name].generation);
    AllIsCarried(NewCondition(VALID, env.proxies[c.name].generation), c.issues, c.warnings);
  }

  // ----- the commits of a build ------------------------------------------------------------------------

  /** The commits made while a root is processed, in order; its own comes last. */
  ghost function CommitsFrom(env: Env, n: Name): (cs: seq<Commit>)
    requires IsRootProxy(env, n)
  {
    var r := Process(env, n);
    (if r.walksTCP then TCPCommits(env, n, []) else [])
    + (if r.walksRoutes then Commits(env, RootOf(env.proxies[n]), n, [], []) else [])
    + [Commit(n, r.issues, r.warnings)]
  }

  /** A commit that a build makes, at some time. */
  ghost predicate IsMade(env: Env, c: Commit)
  {
    || (IsRootProxy(env, c.name) && !HostIsUnique(env, c.name) && c.issues == [DUPLICATE_VHOST] && c.warnings == [])
    || (c.name in env.proxies && !IsRootProxy(env, c.name) && c.issues == [] && c.warnings == [])
    || (exists r :: IsProcessed(env, r) && c in CommitsFrom(env, r))
    || (c.name in Orphans(env) && c.issues == [ORPHAN] && c.warnings == [])
  }

  /** A trace of all the commits of a build, in the order in which maps were ranged over. */
  ghost predicate IsTrace(env: Env, cs: seq<Commit>)
  {
    && (forall i :: 0 <= i < |cs| ==> IsMade(env, cs[i]))
    && (forall c :: IsMade(env, c) ==> c in cs)
  }

  lemma {:induction false} CommitsAreProxies(env: Env, root: Root, name: Name, conds: seq<MatchCondition>,
                                             visited: seq<Name>)
    requires name in env.proxies
    ensures forall i :: 0 <= i < |Commits(env, root, name, conds, visited)| ==>
              Commits(env, root, name, conds, visited)[i].name in env.proxies
    decreases env.proxies.Keys - Seen(visited), 0, 0
  {
    if name !in visited && !IncludesIdentical(env.proxies[name].includes) {
      SeenGrows(env.proxies.Keys, visited, name);
      CommitsBelowAreProxies(env, root, env.proxies[name], env.proxies[name].includes, conds, visited + [name]);
    }
  }

  lemma {:induction false} CommitsBelowAreProxies(env: Env, root: Root, p: Proxy, incs: seq<Include>,
                                                  conds: seq<MatchCondition>, visited: seq<Name>)
    ensures forall i :: 0 <= i < |CommitsIncludes(env, root, p, incs, conds, visited)| ==>
              CommitsIncludes(env, root, p, incs, conds, visited)[i].name in env.proxies
    decreases env.proxies.Keys - Seen(visited), 1, |incs|
  {
    if incs != [] {
      CommitsBelowAreProxies(env, root, p, incs[1..], conds, visited);
      if OutcomeOf(env, p, incs[0]) == Follow {
        CommitsAreProxies(env, root, TargetOf(p, incs[0]), conds + incs[0].conditions, visited);
      }
    }
  }

  lemma {:induction false} TCPCommitsAreProxies(env: Env, name: Name, visited: seq<Name>)
    requires name in env.proxies && name !in visited
    ensures forall i :: 0 <= i < |TCPCommits(env, name, visited)| ==>
              TCPCommits(env, name, visited)[i].name in env.proxies
    decreases env.proxies.Keys - Seen(visited)
  {
    var s := TCPStepOf(env, env.proxies[name]);
    if s.TCPFollow? && s.target !in visited + [name] {
      SeenGrows(env.proxies.Keys, visited, name);
      TCPCommitsAreProxies(env, s.target, visited + [name]);
    }
  }

  lemma CommitsFromAreProxies(env: Env, n: Name)
    requires IsRootProxy(env, n)
    ensures forall i :: 0 <= i < |CommitsFrom(env, n)| ==> CommitsFrom(env, n)[i].name in env.proxies
  {
    CommitsAreProxies(env, RootOf(env.proxies[n]), n, [], []);
    TCPCommitsAreProxies(env, n, []);
  }

  lemma MadeForProxies(env: Env, c: Commit)
    requires IsMade(env, c)
    ensures c.name in env.proxies
  {
    if r :| IsProcessed(env, r) && c in CommitsFrom(env, r) {
      CommitsFromAreProxies(env, r);
    }
  }

  /** Cycle reporting: the proxy at the end of a path of route includes from a processed root
      that is without repetition up to its last step, and closes on itself there, is shown
      as invalid when the build is over, whatever the order of all the other commits. */
  lemma CyclesEndInvalid(env: Env, cs: seq<Commit>, r: Name, p: seq<Name>, x: Name)
    requires IsTrace(env, cs) && WalksRoutesFrom(env, r)
    requires Lasso(RouteGraph(env), p, r, {}, x)
    ensures forall i :: 0 <= i < |cs| ==> cs[i].name in env.proxies
    ensures x in ShownAll(env, map[], cs) && ShownAll(env, map[], cs)[x].status == ConditionFalse
  {
    forall i | 0 <= i < |cs|
      ensures cs[i].name in env.proxies
    {
      MadeForProxies(env, cs[i]);
    }
    LassoIsReentered(RouteGraph(env), p, r, {}, x);
    assert Seen([]) == {};
    var root := RootOf(env.proxies[r]);
    ReentryIsReported(env, root, r, [], [], x);
    var commits := Commits(env, root, r, [], []);
    var i :| 0 <= i < |commits| && commits[i].name == x && CYCLE in commits[i].issues;
    InCommitsFrom(env, r, commits[i]);
    assert IsMade(env, commits[i]);
    var k :| 0 <= k < |cs| && cs[k] == commits[i];
    assert Blames(cs, x);
    OneErrorIsEnough(env, cs, x);
  }

  lemma InCommitsFrom(env: Env, r: Name, c: Commit)
    requires IsRootProxy(env, r) && Process(env, r).walksRoutes
    requires c in Commits(env, RootOf(env.proxies[r]), r, [], [])
    ensures c in CommitsFrom(env, r)
  {
  }

  /** Orphans, in the end, are shown as invalid. */
  lemma OrphansEndInvalid(env: Env, cs: seq<Commit>, n: Name)
    requires IsTrace(env, cs) && n in Orphans(env)
    ensures forall i :: 0 <= i < |cs| ==> cs[i].name in env.proxies
    ensures n in ShownAll(env, map[], cs) && ShownAll(env, map[], cs)[n].status == ConditionFalse
  {
    forall i | 0 <= i < |cs|
      ensures cs[i].name in env.proxies
    {
      MadeForProxies(env, cs[i]);
    }
    var c := Commit(n, [ORPHAN], []);
    assert IsMade(env, c);
    var k :| 0 <= k < |cs| && cs[k] == c;
    assert Blames(cs, n);
    OneErrorIsEnough(env, cs, n);
  }
}
