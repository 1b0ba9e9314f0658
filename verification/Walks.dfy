/** The specification of the HTTPProxy processor in the steps in which the code takes it:
    include by include, route by route, root by root. Processor is proved against these. */
module Walks {
  import opened Text
  import opened Dag
  import opened Kube
  import opened Conditions
  import opened Expansion
  import opened ExpandRoutes
  import opened Status
  import opened Issues
  import opened Proxies
  import opened Compiler
  import opened Builds
  import opened Reporting
  import opened VirtualHosts

  // ----- parts of the specification as values ------------------------------------------------------

  // The methods of Processor are given what they have to compute as ghost values. That a value
  // is what the specification says is stated of every list that equals the one at hand, so
  // that it is taken apart only in the lemmas below.

  /** What a walk from a proxy comes to: routes, proxies visited, its errors and warnings, and
      the commits of the proxies below it. */
  datatype Walk = Walk(routes: seq<Route>, visits: set<Name>, issues: seq<Issue>, warnings: seq<Issue>,
                       commits: seq<Commit>)

  ghost function WalkOf(env: Env, root: Root, name: Name, conds: seq<MatchCondition>, path: seq<Name>): (w: Walk)
    requires name in env.proxies
  {
    Walk(Emit(env, root, name, conds, path), Visits(env, name, path), OwnIssues(env, root, name, conds, path),
         OwnWarnings(env, root, name, conds, path), Commits(env, root, name, conds, path))
  }

  ghost predicate IsWalk(w: Walk, env: Env, root: Root, name: Name, conds: seq<MatchCondition>, path: seq<Name>)
    requires name in env.proxies
  {
    forall visited :: visited == path ==> w == WalkOf(env, root, name, conds, visited)
  }

  lemma MakeWalk(env: Env, root: Root, name: Name, conds: seq<MatchCondition>, path: seq<Name>) returns (w: Walk)
    requires name in env.proxies
    ensures w == WalkOf(env, root, name, conds, path) && IsWalk(w, env, root, name, conds, path)
  {
    w := WalkOf(env, root, name, conds, path);
  }

  lemma WalkIs(w: Walk, env: Env, root: Root, name: Name, conds: seq<MatchCondition>, path: seq<Name>)
    requires name in env.proxies && IsWalk(w, env, root, name, conds, path)
    ensures w == WalkOf(env, root, name, conds, path)
  {
  }

  // ----- one include -------------------------------------------------------------------------------

  /** What includes come to: routes, proxies visited, errors and commits. */
  datatype Below = Below(routes: seq<Route>, visits: set<Name>, issues: seq<Issue>, commits: seq<Commit>)

  ghost function Join(a: Below, b: Below): (c: Below)
  {
    Below(a.routes + b.routes, a.visits + b.visits, a.issues + b.issues, a.commits + b.commits)
  }

  const NOTHING := Below([], {}, [], [])

  lemma JoinAssociates(a: Below, b: Below, c: Below)
    ensures Join(a, Join(b, c)) == Join(Join(a, b), c)
  {
    assert a.routes + (b.routes + c.routes) == a.routes + b.routes + c.routes;
    assert a.issues + (b.issues + c.issues) == a.issues + b.issues + c.issues;
    assert a.commits + (b.commits + c.commits) == a.commits + b.commits + c.commits;
  }

  lemma JoinNothing(a: Below)
    ensures Join(a, NOTHING) == a && Join(NOTHING, a) == a
  {
    assert a.routes + [] == a.routes == [] + a.routes;
    assert a.issues + [] == a.issues == [] + a.issues;
    assert a.commits + [] == a.commits == [] + a.commits;
  }

  /** A proxy that is included, seen from the one that includes it: its own commit is last. */
  ghost function Included(w: Walk, target: Name, own: Name): (b: Below)
  {
    Below(w.routes, w.visits + {own}, [], w.commits + [Commit(target, w.issues, w.warnings)])
  }

  ghost function OneBelow(env: Env, root: Root, p: Proxy, inc: Include, conds: seq<MatchCondition>,
                          path: seq<Name>): (b: Below)
  {
    var outcome, target := OutcomeOf(env, p, inc), TargetOf(p, inc);
    if outcome == Follow
      then Included(WalkOf(env, root, target, conds + inc.conditions, path), target, env.proxies[target].name)
    else Below(if outcome == NotFound then Placeholder(inc) else [], {}, IssueOf(outcome), [])
  }

  ghost predicate IsOneBelow(b: Below, env: Env, root: Root, p: Proxy, inc: Include, conds: seq<MatchCondition>,
                             path: seq<Name>)
  {
    forall visited :: visited == path ==> b == OneBelow(env, root, p, inc, conds, visited)
  }

  /** An include that is followed comes to a walk. */
  lemma FollowedIs(b: Below, env: Env, root: Root, p: Proxy, inc: Include, conds: seq<MatchCondition>, path: seq<Name>)
    returns (w: Walk)
    requires IsOneBelow(b, env, root, p, inc, conds, path) && OutcomeOf(env, p, inc) == Follow
    ensures IsWalk(w, env, root, TargetOf(p, inc), conds + inc.conditions, path)
    ensures b == Included(w, TargetOf(p, inc), env.proxies[TargetOf(p, inc)].name)
  {
    w := MakeWalk(env, root, TargetOf(p, inc), conds + inc.conditions, path);
    assert b == OneBelow(env, root, p, inc, conds, path);
  }

  lemma RejectedIs(b: Below, env: Env, root: Root, p: Proxy, inc: Include, conds: seq<MatchCondition>, path: seq<Name>,
                   outcome: Outcome)
    requires IsOneBelow(b, env, root, p, inc, conds, path) && outcome == OutcomeOf(env, p, inc) && outcome != Follow
    ensures b == Below(if outcome == NotFound then Placeholder(inc) else [], {}, IssueOf(outcome), [])
  {
    assert b == OneBelow(env, root, p, inc, conds, path);
  }

  // ----- all includes ------------------------------------------------------------------------------

  ghost function AllBelow(env: Env, root: Root, p: Proxy, incs: seq<Include>, conds: seq<MatchCondition>,
                          path: seq<Name>): (b: Below)
  {
    Below(EmitIncludes(env, root, p, incs, conds, path), VisitsIncludes(env, p, incs, path),
          IncludeIssues(env, p, incs),
          CommitsIncludes(env, root, p, incs, conds, path))
  }

  ghost predicate IsAllBelow(b: Below, env: Env, root: Root, p: Proxy, incs: seq<Include>, conds: seq<MatchCondition>,
                             path: seq<Name>)
  {
    forall list :: list == incs ==> b == AllBelow(env, root, p, list, conds, path)
  }

  /** The loop over the includes goes from one to the next. */
  lemma NextBelow(env: Env, root: Root, p: Proxy, incs: seq<Include>, k: nat, conds: seq<MatchCondition>,
                  path: seq<Name>)
    requires k < |incs|
    ensures AllBelow(env, root, p, incs[k..], conds, path) ==
            Join(OneBelow(env, root, p, incs[k], conds, path), AllBelow(env, root, p, incs[k + 1..], conds, path))
  {
    assert incs[k..][1..] == incs[k + 1..];
  }

  lemma BelowStep(env: Env, root: Root, p: Proxy, incs: seq<Include>, k: nat, conds: seq<MatchCondition>,
                  path: seq<Name>,
                  all: Below, done: Below, rest: Below)
    returns (one: Below, rest': Below)
    requires k < |incs| && IsAllBelow(rest, env, root, p, incs[k..], conds, path) && all == Join(done, rest)
    ensures IsOneBelow(one, env, root, p, incs[k], conds, path)
    ensures IsAllBelow(rest', env, root, p, incs[k + 1..], conds, path) && all == Join(Join(done, one), rest')
  {
    NextBelow(env, root, p, incs, k, conds, path);
    one, rest' := OneBelow(env, root, p, incs[k], conds, path), AllBelow(env, root, p, incs[k + 1..], conds, path);
    assert rest == AllBelow(env, root, p, incs[k..], conds, path) == Join(one, rest');
    JoinAssociates(done, one, rest');
  }

  lemma BelowToEnd(env: Env, root: Root, p: Proxy, incs: seq<Include>, conds: seq<MatchCondition>, path: seq<Name>,
                   all: Below, done: Below, rest: Below)
    requires IsAllBelow(rest, env, root, p, incs[|incs|..], conds, path) && all == Join(done, rest)
    ensures all == done
  {
    assert rest == AllBelow(env, root, p, [], conds, path);
    JoinNothing(done);
  }

  // ----- routes in cells ----------------------------------------------------------------------------

  /** Different cells that hold these routes, in some order. */
  ghost predicate Hold(ptrs: seq<RoutePtr>, routes: seq<Route>)
    reads ptrs
  {
    Distinct(ptrs) && multiset(Values(ptrs)) == multiset(routes)
  }

  lemma HoldConcat(a: seq<RoutePtr>, x: seq<Route>, b: seq<RoutePtr>, y: seq<Route>)
    requires Hold(a, x) && Hold(b, y) && forall p :: p in a ==> p !in b
    ensures Hold(a + b, x + y)
  {
    ValuesConcat(a, b);
    forall i, j | 0 <= i < j < |a + b|
      ensures (a + b)[i] != (a + b)[j]
    {
      if j < |a| {
      } else if i >= |a| {
        assert (a + b)[i] == b[i - |a|] && (a + b)[j] == b[j - |a|];
      } else {
        assert (a + b)[i] in a && (a + b)[j] in b;
      }
    }
  }

  lemma HoldOne(p: RoutePtr)
    ensures Hold([p], [p.route])
  {
    assert Values([p]) == [p.route];
  }

  lemma LessTwice(s: set<Name>, a: set<Name>, b: set<Name>)
    ensures s - a - b == s - (a + b)
  {
  }

  twostate lemma AllFresh(new ptrs: seq<RoutePtr>)
    requires forall p :: p in ptrs ==> fresh(p)
    ensures fresh(ptrs)
  {
    forall i | 0 <= i < |ptrs|
      ensures fresh(ptrs[i])
    {
      assert ptrs[i] in ptrs;
    }
  }

  // ----- services ------------------------------------------------------------------------------------

  /** A service of a route: a cluster, or a reason to pass over it, or to give up. */
  datatype Resolution = Serve(c: Cluster) | Skip(issue: Issue) | Stop(issue: Issue)

  ghost function WithResolution(acc: Clusters, ref: ServiceRef, res: Resolution): (out: Clusters)
  {
    match res
    case Serve(c) => WithCluster(acc, ref, c)
    case Skip(issue) => acc.(issues := acc.issues + [issue])
    case Stop(issue) => Stopped(acc, issue)
  }

  // ----- the routes of a proxy -------------------------------------------------------------------------

  /** What a list of routes comes to. */
  datatype Summary = Summary(own: Option<seq<Route>>, issues: seq<Issue>, warnings: seq<Issue>)

  ghost function SummaryOf(env: Env, root: Root, ns: string, conds: seq<MatchCondition>,
                           specs: seq<RouteSpec>): (s: Summary)
  {
    Summary(OwnRoutes(env, root, ns, conds, specs), RouteIssues(env, root, ns, conds, specs),
            RouteWarnings(env, root, ns, conds, specs))
  }

  ghost predicate IsSummary(s: Summary, env: Env, root: Root, ns: string, conds: seq<MatchCondition>,
                            specs: seq<RouteSpec>)
  {
    forall ss :: ss == specs ==> s == SummaryOf(env, root, ns, conds, ss)
  }

  ghost predicate IsBuilt(b: Built, env: Env, root: Root, ns: string, conds: seq<MatchCondition>, spec: RouteSpec)
  {
    forall cs :: cs == conds ==> b == BuildRoute(env, root, ns, cs, spec)
  }

  lemma BuiltIs(b: Built, env: Env, root: Root, ns: string, conds: seq<MatchCondition>, spec: RouteSpec)
    requires IsBuilt(b, env, root, ns, conds, spec)
    ensures b == BuildRoute(env, root, ns, conds, spec)
  {
  }

  /** A route whose early checks fail. */
  lemma BuiltEarly(b: Built, env: Env, root: Root, ns: string, conds: seq<MatchCondition>, spec: RouteSpec,
                   issue: Issue)
    requires IsBuilt(b, env, root, ns, conds, spec) && EarlyIssue(conds, spec) == Some(issue)
    ensures b == Built(None, [issue], [])
  {
    BuiltIs(b, env, root, ns, conds, spec);
  }

  ghost function Then(b: Built, rest: Summary): (s: Summary)
  {
    if b.route.None? then Summary(None, b.issues + [], b.warnings + [])
    else Summary(if rest.own.None? then None else Some([b.route.value] + rest.own.value), b.issues + rest.issues,
                 b.warnings + rest.warnings)
  }

  lemma SummaryStep(env: Env, root: Root, ns: string, conds: seq<MatchCondition>, specs: seq<RouteSpec>, k: nat)
    requires k < |specs|
    ensures SummaryOf(env, root, ns, conds, specs[k..]) ==
            Then(BuildRoute(env, root, ns, conds, specs[k]), SummaryOf(env, root, ns, conds, specs[k + 1..]))
  {
    assert specs[k..][0] == specs[k] && specs[k..][1..] == specs[k + 1..];
  }

  /** All comes to what is there already, and then the rest. */
  ghost predicate SoFar(all: Summary, built: seq<Route>, es: seq<Issue>, ws: seq<Issue>, rest: Summary)
  {
    && all.issues == es + rest.issues && all.warnings == ws + rest.warnings
    && all.own == if rest.own.None? then None else Some(built + rest.own.value)
  }

  lemma NothingYet(all: Summary)
    ensures SoFar(all, [], [], [], all)
  {
    assert [] + all.issues == all.issues && [] + all.warnings == all.warnings;
    if all.own.Some? {
      assert [] + all.own.value == all.own.value;
    }
  }

  lemma NothingLeft(env: Env, root: Root, ns: string, conds: seq<MatchCondition>, specs: seq<RouteSpec>,
                    all: Summary, built: seq<Route>, es: seq<Issue>, ws: seq<Issue>, rest: Summary)
    requires IsSummary(rest, env, root, ns, conds, specs[|specs|..]) && SoFar(all, built, es, ws, rest)
    ensures all == Summary(Some(built), es, ws)
  {
    assert rest == SummaryOf(env, root, ns, conds, []);
    assert es + [] == es && ws + [] == ws && built + [] == built;
  }

  lemma OneMore(all: Summary, built: seq<Route>, es: seq<Issue>, ws: seq<Issue>, b: Built, rest: Summary)
    requires SoFar(all, built, es, ws, Then(b, rest))
    ensures b.route.Some? ==> SoFar(all, built + [b.route.value], es + b.issues, ws + b.warnings, rest)
    ensures b.route.None? ==> all == Summary(None, es + b.issues, ws + b.warnings)
  {
    assert es + (b.issues + rest.issues) == es + b.issues + rest.issues;
    assert ws + (b.warnings + rest.warnings) == ws + b.warnings + rest.warnings;
    if b.route.Some? && rest.own.Some? {
      assert built + ([b.route.value] + rest.own.value) == built + [b.route.value] + rest.own.value;
    }
  }

  lemma RouteStep(env: Env, root: Root, ns: string, conds: seq<MatchCondition>, specs: seq<RouteSpec>, k: nat,
                  all: Summary, built: seq<Route>, es: seq<Issue>, ws: seq<Issue>, rest: Summary)
    returns (b: Built, rest': Summary)
    requires k < |specs| && IsSummary(rest, env, root, ns, conds, specs[k..]) && SoFar(all, built, es, ws, rest)
    ensures IsBuilt(b, env, root, ns, conds, specs[k]) && IsSummary(rest', env, root, ns, conds, specs[k + 1..])
    ensures b.route.Some? ==> SoFar(all, built + [b.route.value], es + b.issues, ws + b.warnings, rest')
    ensures b.route.None? ==> all == Summary(None, es + b.issues, ws + b.warnings)
  {
    b, rest' := BuildRoute(env, root, ns, conds, specs[k]), SummaryOf(env, root, ns, conds, specs[k + 1..]);
    assert rest == SummaryOf(env, root, ns, conds, specs[k..]);
    SummaryStep(env, root, ns, conds, specs, k);
    OneMore(all, built, es, ws, b, rest');
  }

  // ----- one proxy -------------------------------------------------------------------------------------

  /** What a walk comes to from what the includes and the routes of the proxy come to. */
  ghost predicate Composes(w: Walk, below: Below, own: Summary)
  {
    && (own.own.Some? ==> AllPrefix(below.routes + own.own.value))
    && w == Walk(if own.own.None? then [] else Expand(below.routes + own.own.value), below.visits,
                 below.issues + own.issues, own.warnings, below.commits)
  }

  lemma WalkUnfolds(w: Walk, env: Env, root: Root, name: Name, conds: seq<MatchCondition>, path: seq<Name>)
    returns (below: Below, own: Summary)
    requires name in env.proxies && name !in path && !IncludesIdentical(env.proxies[name].includes)
    requires IsWalk(w, env, root, name, conds, path)
    ensures IsAllBelow(below, env, root, env.proxies[name], env.proxies[name].includes, conds, path + [name])
    ensures IsSummary(own, env, root, env.proxies[name].name.namespace, conds, env.proxies[name].routes)
    ensures Composes(w, below, own)
  {
    var p := env.proxies[name];
    WalkIs(w, env, root, name, conds, path);
    SeenGrows(env.proxies.Keys, path, name);
    below := AllBelow(env, root, p, p.includes, conds, path + [name]);
    own := SummaryOf(env, root, p.name.namespace, conds, p.routes);
  }

  lemma WalkStops(w: Walk, env: Env, root: Root, name: Name, conds: seq<MatchCondition>, path: seq<Name>)
    requires name in env.proxies && IsWalk(w, env, root, name, conds, path)
    ensures name in path ==> w == Walk([], {}, [CYCLE], [], [])
    ensures name !in path && IncludesIdentical(env.proxies[name].includes) ==>
              w == Walk([], {}, [DUPLICATE_CONDITIONS], [], [])
  {
    WalkIs(w, env, root, name, conds, path);
  }

  // ----- TCP proxies -----------------------------------------------------------------------------------

  /** What a walk over TCP includes comes to. */
  datatype TCPWhole = TCPWhole(result: TCPResult, visits: set<Name>, issues: seq<Issue>, commits: seq<Commit>)

  ghost function TCPWholeOf(env: Env, name: Name, path: seq<Name>): (t: TCPWhole)
    requires name in env.proxies && name !in path
  {
    TCPWhole(TCPWalk(env, name, path), TCPVisits(env, name, path), TCPIssues(env, name, path),
             TCPCommits(env, name, path))
  }

  /** A walk that stays where it is. */
  ghost function TCPHere(step: TCPStep): (t: TCPWhole)
  {
    match step
    case TCPFail(issue) => TCPWhole(TCPResult(false, None), {}, [issue], [])
    case TCPServe(cs) => TCPWhole(TCPResult(true, Some(cs)), {}, [], [])
    case _ => TCPWhole(TCPResult(true, None), {}, [], [])
  }

  /** A walk that goes on to a target, on a path that ends with the current proxy. */
  ghost function TCPOnward(env: Env, target: Name, path: seq<Name>): (t: TCPWhole)
    requires target in env.proxies
  {
    if target in path then TCPWhole(TCPResult(false, None), {target}, [TCP_CYCLE], [])
    else
      var t := TCPWholeOf(env, target, path);
      TCPWhole(t.result, {target} + t.visits, [],
               t.commits + [Commit(target, t.issues, TCPWarnings(env.proxies[target]))])
  }

  lemma TCPUnfolds(env: Env, name: Name, path: seq<Name>)
    requires name in env.proxies && name !in path
    ensures var step := TCPStepOf(env, env.proxies[name]);
            TCPWholeOf(env, name, path) == if step.TCPFollow? then TCPOnward(env, step.target, path + [name])
              else TCPHere(step)
  {
    SeenGrows(env.proxies.Keys, path, name);
  }

  ghost predicate IsTCPWhole(t: TCPWhole, env: Env, name: Name, path: seq<Name>)
    requires name in env.proxies && name !in path
  {
    forall visited :: visited == path ==> t == TCPWholeOf(env, name, visited)
  }

  ghost predicate IsTCPOnward(t: TCPWhole, env: Env, target: Name, path: seq<Name>)
    requires target in env.proxies
  {
    forall visited :: visited == path ==> t == TCPOnward(env, target, visited)
  }

  lemma TCPEndsHere(t: TCPWhole, env: Env, name: Name, path: seq<Name>, step: TCPStep)
    requires name in env.proxies && name !in path && IsTCPWhole(t, env, name, path)
    requires step == TCPStepOf(env, env.proxies[name]) && !step.TCPFollow?
    ensures t == TCPHere(step)
  {
    assert t == TCPWholeOf(env, name, path);
    TCPUnfolds(env, name, path);
  }

  lemma TCPGoesOn(t: TCPWhole, env: Env, name: Name, path: seq<Name>, step: TCPStep)
    requires name in env.proxies && name !in path && IsTCPWhole(t, env, name, path)
    requires step == TCPStepOf(env, env.proxies[name]) && step.TCPFollow?
    ensures IsTCPOnward(t, env, step.target, path + [name])
  {
    assert t == TCPWholeOf(env, name, path);
    TCPUnfolds(env, name, path);
  }

  lemma OnwardStops(t: TCPWhole, env: Env, target: Name, path: seq<Name>)
    requires target in env.proxies && target in path && IsTCPOnward(t, env, target, path)
    ensures t == TCPWhole(TCPResult(false, None), {target}, [TCP_CYCLE], [])
  {
    assert t == TCPOnward(env, target, path);
  }

  lemma OnwardIs(t: TCPWhole, env: Env, target: Name, path: seq<Name>) returns (inner: TCPWhole)
    requires target in env.proxies && target !in path && IsTCPOnward(t, env, target, path)
    ensures IsTCPWhole(inner, env, target, path)
    ensures t == TCPWhole(inner.result, {target} + inner.visits, [],
                          inner.commits + [Commit(target, inner.issues, TCPWarnings(env.proxies[target]))])
  {
    assert t == TCPOnward(env, target, path);
    inner := TCPWholeOf(env, target, path);
  }

  /** The TCP proxy of a host is set when the walk has found one. */
  ghost function WithTCP(proxies: map<string, seq<Cluster>>, host: string,
                         clusters: Option<seq<Cluster>>): (out: map<string, seq<Cluster>>)
  {
    if clusters.Some? then proxies[host := clusters.value] else proxies
  }

  // ----- hosts -----------------------------------------------------------------------------------------

  function RoutesOf(hosts: map<string, Routes>, host: string): (m: Routes)
  {
    if host in hosts then hosts[host] else map[]
  }

  /** A host after routes have been added to it, one after another. */
  ghost function Grown(hosts: map<string, Routes>, host: string, rs: seq<Route>): (out: map<string, Routes>)
  {
    hosts[host := Added(RoutesOf(hosts, host), rs)]
  }

  function LaterIssues(p: Proxy): (issues: seq<Issue>)
    requires p.vhost.Some?
  {
    if p.vhost.value.laterCheck.Some? then [p.vhost.value.laterCheck.value] else []
  }

  /** The routes and TCP proxies that hosts have been given. */
  datatype Hosts = Hosts(insecure: map<string, Routes>, secure: map<string, Routes>, tcp: map<string, seq<Cluster>>)

  /** The hosts after a root has been processed. */
  ghost function HostsAfter(h: Hosts, p: Proxy, r: Processed, added: seq<Route>): (h': Hosts)
    requires p.vhost.Some?
  {
    var host := p.vhost.value.fqdn;
    Hosts(if r.walksRoutes then Grown(h.insecure, host, added) else h.insecure,
          if r.routes.Some? && p.vhost.value.tls.Some? && p.tcp.None? then Grown(h.secure, host, added) else h.secure,
          WithTCP(h.tcp, host, r.tcp))
  }

  ghost function BagOf(routes: Option<seq<Route>>): (bag: multiset<Route>)
  {
    if routes.Some? then multiset(routes.value) else multiset{}
  }

  /** What the walks from a root take off the list of orphans. */
  ghost function VisitsIn(env: Env, n: Name, r: Processed): (ns: set<Name>)
    requires IsRootProxy(env, n)
  {
    (if r.walksTCP then TCPVisits(env, n, []) else {}) + (if r.walksRoutes then Visits(env, n, []) else {})
  }

  ghost function CommitsIn(env: Env, n: Name, r: Processed): (cs: seq<Commit>)
    requires IsRootProxy(env, n)
  {
    (if r.walksTCP then TCPCommits(env, n, []) else [])
    + (if r.walksRoutes then Commits(env, RootOf(env.proxies[n]), n, [], []) else [])
  }

  /** What the walk over the routes of a root comes to. */
  ghost function RoutesPart(env: Env, n: Name): (r: Processed)
    requires IsRootProxy(env, n)
  {
    var p, root := env.proxies[n], RootOf(env.proxies[n]);
    Processed(OwnIssues(env, root, n, [], []) + LaterIssues(p), OwnWarnings(env, root, n, [], []), false, true, None,
              if p.vhost.value.laterCheck.Some? then None else Some(Emit(env, root, n, [], [])))
  }

  lemma RoutesPartIs(env: Env, n: Name)
    requires IsRootProxy(env, n)
    ensures VisitsIn(env, n, RoutesPart(env, n)) == Visits(env, n, [])
    ensures CommitsIn(env, n, RoutesPart(env, n)) == Commits(env, RootOf(env.proxies[n]), n, [], [])
  {
    assert [] + Commits(env, RootOf(env.proxies[n]), n, [], []) == Commits(env, RootOf(env.proxies[n]), n, [], []);
  }

  lemma TCPPartIs(env: Env, n: Name, r: Processed)
    requires IsRootProxy(env, n) && r.walksTCP && !r.walksRoutes
    ensures VisitsIn(env, n, r) == TCPVisits(env, n, []) && CommitsIn(env, n, r) == TCPCommits(env, n, [])
  {
    assert TCPCommits(env, n, []) + [] == TCPCommits(env, n, []);
  }

  lemma TCPAndRoutesAre(env: Env, n: Name, r: Processed)
    requires IsRootProxy(env, n) && r.walksTCP && r.walksRoutes
    ensures VisitsIn(env, n, r) == TCPVisits(env, n, []) + Visits(env, n, [])
    ensures CommitsIn(env, n, r) == TCPCommits(env, n, []) + Commits(env, RootOf(env.proxies[n]), n, [], [])
  {
  }

  lemma WalkWithoutTCP(env: Env, n: Name)
    requires IsRootProxy(env, n) && env.proxies[n].tcp.None?
    ensures Walked(env, n, []) == RoutesPart(env, n)
  {
    NothingInFront(OwnIssues(env, RootOf(env.proxies[n]), n, [], []), LaterIssues(env.proxies[n]));
    NothingInFront(OwnWarnings(env, RootOf(env.proxies[n]), n, [], []), []);
  }

  lemma NothingInFront(own: seq<Issue>, later: seq<Issue>)
    ensures [] + own == own && [] + [] + own == own && own + [] == own
    ensures [] + [] + own + later == own + later
  {
  }

  lemma WalkWithTCP(env: Env, n: Name)
    requires IsRootProxy(env, n) && env.proxies[n].tcp.Some? && env.proxies[n].vhost.value.tls.Some?
    ensures var p, t, rest := env.proxies[n], TCPWholeOf(env, n, []), RoutesPart(env, n);
            Walked(env, n, []) ==
            if !t.result.ok then Processed(t.issues, TCPWarnings(p), true, false, None, None)
            else Processed(t.issues + rest.issues, TCPWarnings(p) + rest.warnings, true, true, t.result.clusters,
                           rest.routes)
  {
    var t, own := TCPWholeOf(env, n, []), OwnIssues(env, RootOf(env.proxies[n]), n, [], []);
    assert [] + t.issues == t.issues;
    assert t.issues + (own + LaterIssues(env.proxies[n])) == t.issues + own + LaterIssues(env.proxies[n]);
    assert t.issues + own + [] == t.issues + own;
  }

  /** A root has been processed with this result, up to its own commit: what that did to the
      status cache, to the list of orphans and to the hosts. */
  ghost predicate CameTo(env: Env, n: Name, r: Processed, i: nat, st: CacheState, st': CacheState,
                         listed: set<Name>, listed': set<Name>, h: Hosts, h': Hosts, added: seq<Route>)
    requires IsRootProxy(env, n)
  {
    && multiset(added) == BagOf(r.routes)
    && listed' == listed - VisitsIn(env, n, r)
    && h' == HostsAfter(h, env.proxies[n], r, added)
    && Advanced(env, st, st', i, n, r.issues, r.warnings, CommitsIn(env, n, r))
  }

  lemma RoutesAfterTCP(env: Env, n: Name, i: nat, st: CacheState, mid: CacheState, st': CacheState,
                       listed: set<Name>, between: set<Name>, listed': set<Name>, h: Hosts, hm: Hosts, h': Hosts,
                       added: seq<Route>)
    requires IsRootProxy(env, n) && env.proxies[n].tcp.Some? && env.proxies[n].vhost.value.tls.Some? && Sound(st)
    requires TCPWalk(env, n, []).ok
    requires between == listed - TCPVisits(env, n, [])
    requires hm == h.(tcp := WithTCP(h.tcp, env.proxies[n].vhost.value.fqdn, TCPWalk(env, n, []).clusters))
    requires Advanced(env, st, mid, i, n, TCPIssues(env, n, []), TCPWarnings(env.proxies[n]), TCPCommits(env, n, []))
    requires CameTo(env, n, RoutesPart(env, n), i, mid, st', between, listed', hm, h', added)
    ensures CameTo(env, n, Walked(env, n, []), i, st, st', listed, listed', h, h', added)
  {
    var p, rest := env.proxies[n], RoutesPart(env, n);
    WalkWithTCP(env, n);
    RoutesPartIs(env, n);
    TCPAndRoutesAre(env, n, Walked(env, n, []));
    LessTwice(listed, TCPVisits(env, n, []), Visits(env, n, []));
    AdvancedTwice(env, st, mid, st', i, n, TCPIssues(env, n, []), TCPWarnings(p), TCPCommits(env, n, []),
                  rest.issues, rest.warnings, Commits(env, RootOf(p), n, [], []));
  }

  lemma SoftErrorsFirst(env: Env, n: Name, soft: seq<Issue>)
    requires IsRootProxy(env, n)
    ensures Walked(env, n, soft) == Walked(env, n, []).(issues := soft + Walked(env, n, []).issues)
  {
    var p := env.proxies[n];
    var a := if p.tcp.Some? then TCPIssues(env, n, []) else [];
    var b := OwnIssues(env, RootOf(p), n, [], []);
    InFront(soft, a, b, LaterIssues(p));
    InFront(soft, [TLS_MISSING], [], []);
  }

  lemma InFront(soft: seq<Issue>, a: seq<Issue>, b: seq<Issue>, c: seq<Issue>)
    ensures soft + ([] + a) == soft + a
    ensures soft + ([] + a + b) == soft + a + b
    ensures soft + ([] + a + b + c) == soft + a + b + c
  {
  }

  lemma SoftThen(env: Env, n: Name, soft: seq<Issue>, r: Processed, i: nat, st: CacheState, mid: CacheState,
                 st': CacheState,
                 listed: set<Name>, listed': set<Name>, h: Hosts, h': Hosts, added: seq<Route>)
    requires IsRootProxy(env, n) && Sound(st) && Advanced(env, st, mid, i, n, soft, [], [])
    requires CameTo(env, n, r, i, mid, st', listed, listed', h, h', added)
    ensures CameTo(env, n, r.(issues := soft + r.issues), i, st, st', listed, listed', h, h', added)
  {
    var cs := CommitsIn(env, n, r);
    AdvancedTwice(env, st, mid, st', i, n, soft, [], [], r.issues, r.warnings, cs);
    assert [] + r.warnings == r.warnings && [] + cs == cs;
  }

  lemma {:induction false} NoClustersOnFailure(env: Env, name: Name, path: seq<Name>)
    requires name in env.proxies && name !in path && !TCPWalk(env, name, path).ok
    ensures TCPWalk(env, name, path).clusters.None?
    decreases env.proxies.Keys - Seen(path)
  {
    SeenGrows(env.proxies.Keys, path, name);
    var step := TCPStepOf(env, env.proxies[name]);
    if step.TCPFollow? && step.target !in path + [name] {
      NoClustersOnFailure(env, step.target, path + [name]);
    }
  }
}
