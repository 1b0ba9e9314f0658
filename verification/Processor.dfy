/** The HTTPProxy processor as it runs (internal/dag/httpproxy_processor.go): it walks the
    includes with slices that share arrays, builds routes in place, keeps the list of
    orphans and reports to the status cache. Each step is proved against Compiler. */
module Processor {
  import opened Text
  import opened Dag
  import opened Kube
  import opened Conditions
  import opened Expansion
  import opened ExpandRoutes
  import opened Status
  import opened Issues
  import opened Proxies
  import opened Compiler
  import opened Builds
  import opened Reporting
  import opened Slices
  import opened Checks
  import opened VirtualHosts
  import opened Walks
  import opened Rounds

  class HTTPProxyProcessor {
    const env: Env
    const cache: StatusCache
    var orphaned: set<Name>
    var insecure: map<string, Routes>
    var secure: map<string, Routes>
    var tcpProxies: map<string, seq<Cluster>>

    constructor (env: Env, cache: StatusCache)
      ensures this.env == env && this.cache == cache
      ensures orphaned == {} && insecure == map[] && secure == map[] && tcpProxies == map[]
    {
      this.env, this.cache := env, cache;
      orphaned, insecure, secure, tcpProxies := {}, map[], map[], map[];
    }

    /** The status cache is in order, and update i of it is open for a proxy. */
    ghost predicate Ready(i: nat, name: Name)
      reads cache
    {
      Sound(cache.Now()) && IsOpen(cache.Now(), i, name)
    }

    // ----- reports --------------------------------------------------------------------------------

    method Report(i: nat, name: Name, issue: Issue)
      requires Ready(i, name)
      modifies cache
      ensures Ready(i, name)
      ensures Advanced(env, old(cache.Now()), cache.Now(), i, name, [issue], [], [])
    {
      OneError(env, cache.Now(), i, name, issue);
      cache.AddError(i, VALID, issue.kind, issue.reason, "");
    }

    method Warn(i: nat, name: Name, warning: Issue)
      requires Ready(i, name)
      modifies cache
      ensures Ready(i, name)
      ensures Advanced(env, old(cache.Now()), cache.Now(), i, name, [], [warning], [])
    {
      OneWarning(env, cache.Now(), i, name, warning);
      cache.AddWarning(i, VALID, warning.kind, warning.reason, "");
    }

    method WarnAll(i: nat, name: Name, warnings: seq<Issue>)
      requires Ready(i, name)
      modifies cache
      ensures Ready(i, name)
      ensures Advanced(env, old(cache.Now()), cache.Now(), i, name, [], warnings, [])
    {
      AdvancedNowhere(env, cache.Now(), i, name);
      for k := 0 to |warnings|
        invariant Ready(i, name)
        invariant Advanced(env, old(cache.Now()), cache.Now(), i, name, [], warnings[..k], [])
      {
        ghost var mid := cache.Now();
        Warn(i, name, warnings[k]);
        ReportedOn(env, old(cache.Now()), mid, cache.Now(), i, name, [], warnings[..k], [], [warnings[k]]);
        NothingTwice([], []);
        assert warnings[..k + 1] == warnings[..k] + [warnings[k]];
      }
      assert warnings[..|warnings|] == warnings;
    }

    /** ProxyAccessor and ConditionFor: an open update for a proxy. */
    method Begin(name: Name) returns (i: nat, ghost time: int)
      requires Sound(cache.Now()) && name in env.proxies
      modifies cache
      ensures i == |old(cache.updates)| && Ready(i, name)
      ensures cache.Now() == Begun(old(cache.Now()), name, env.proxies[name].generation, time)
    {
      var now: int := *;
      time := now;
      BegunIsOpen(env, cache.Now(), name, env.proxies[name].generation, now);
      i := cache.ProxyAccessor(name, env.proxies[name].generation, now);
      var _ := cache.ConditionFor(i, VALID);
    }

    // ----- one route --------------------------------------------------------------------------------

    /** What a service of a route comes to, before mirrors are looked at. */
    method Resolve(ns: string, ref: ServiceRef) returns (res: Resolution)
      ensures forall acc :: WithService(env, ns, ref, acc) == WithResolution(acc, ref, res)
    {
      if ref.port < 1 || ref.port > 65535 {
        return Stop(PORT_INVALID);
      }
      var s := EnsureService(env.services, Name(ns, ref.name), ref.port, env.externalNames);
      if s.None? {
        return Skip(UNRESOLVED);
      }
      var protocol := GetProtocol(ref, s.value);
      if protocol.None? {
        return Stop(UNSUPPORTED);
      }
      if (protocol.value == "tls" || protocol.value == "h2") && ref.tlsCheck.Some? {
        return Stop(ref.tlsCheck.value);
      }
      if ref.check.Some? {
        return Stop(ref.check.value);
      }
      return Serve(Cluster(s.value, protocol.value, ref.weight, ref.policy));
    }

    /** One pass of the loop over the services of a route. */
    method AddService(i: nat, name: Name, ns: string, ref: ServiceRef, r: RoutePtr, ghost acc: Clusters)
      returns (ok: bool)
      requires Ready(i, name) && !acc.fatal
      requires r.route.clusters == acc.clusters && r.route.mirror == acc.mirror
      modifies cache, r
      ensures Ready(i, name)
      ensures var out := WithService(env, ns, ref, acc);
              && ok == !out.fatal && acc.issues <= out.issues
              && Advanced(env, old(cache.Now()), cache.Now(), i, name, out.issues[|acc.issues|..], [], [])
              && (ok ==> r.route == old(r.route).(clusters := out.clusters, mirror := out.mirror))
    {
      AdvancedNowhere(env, cache.Now(), i, name);
      var res := Resolve(ns, ref);
      match res
      case Stop(issue) =>
        Report(i, name, issue);
        ok := false;
      case Skip(issue) =>
        Report(i, name, issue);
        ok := true;
      case Serve(c) =>
        if ref.mirror && r.route.mirror.Some? {
          Report(i, name, ONE_MIRROR);
          return false;
        }
        if ref.mirror {
          r.route := r.route.(mirror := Some(c));
        } else {
          r.route := r.route.(clusters := r.route.clusters + [c]);
        }
        ok := true;
    }

    /** The loop over the services of a route. */
    method AddServices(i: nat, name: Name, ns: string, refs: seq<ServiceRef>, r: RoutePtr) returns (ok: bool)
      requires Ready(i, name) && r.route.clusters == [] && r.route.mirror == None
      modifies cache, r
      ensures Ready(i, name)
      ensures var cs := WithServices(env, ns, refs, NO_CLUSTERS);
              && ok == !cs.fatal
              && Advanced(env, old(cache.Now()), cache.Now(), i, name, cs.issues, [], [])
              && (ok ==> r.route == old(r.route).(clusters := cs.clusters, mirror := cs.mirror))
    {
      ghost var acc := NO_CLUSTERS;
      AdvancedNowhere(env, cache.Now(), i, name);
      for k := 0 to |refs|
        invariant Ready(i, name) && !acc.fatal
        invariant WithServices(env, ns, refs, NO_CLUSTERS) == WithServices(env, ns, refs[k..], acc)
        invariant Advanced(env, old(cache.Now()), cache.Now(), i, name, acc.issues, [], [])
        invariant r.route == old(r.route).(clusters := acc.clusters, mirror := acc.mirror)
      {
        ghost var mid := cache.Now();
        ok := AddService(i, name, ns, refs[k], r, acc);
        ghost var out := WithService(env, ns, refs[k], acc);
        ErrorsAfterErrors(env, old(cache.Now()), mid, cache.Now(), i, name, acc.issues, out.issues);
        assert refs[k..][1..] == refs[k + 1..];
        if !ok {
          return;
        }
        acc := out;
      }
      return true;
    }

    /** The checks of a route that come before it is made, from the header conditions on. */
    method CheckRoute(all: seq<MatchCondition>, spec: RouteSpec, ghost conds: seq<MatchCondition>)
      returns (issue: Option<Issue>)
      requires PathBlockOk(spec.conditions) && all == conds + spec.conditions
      ensures issue == EarlyIssue(conds, spec)
    {
      var err := HeaderMatchConditionsValid(all);
      if err.Some? {
        return Some(Issue(RouteError, HeaderMatchConditionsNotValid));
      }
      if spec.headersCheck.Some? {
        return spec.headersCheck;
      }
      if |spec.services| < 1 && spec.redirect.None? {
        return Some(Issue(RouteError, NoServicesPresent));
      }
      return spec.policyCheck;
    }

    /** A new route without clusters and without a rewrite. */
    method NewRoute(root: Root, all: seq<MatchCondition>, spec: RouteSpec) returns (r: RoutePtr)
      ensures fresh(r)
      ensures r.route == Route(Prefix(MergedPrefix(all), StringPrefix), MergedHeaders(all), "", [], None, None,
                               spec.redirect,
                               root.enforceTLS && !(spec.permitInsecure && !env.disablePermitInsecure), spec.policy)
    {
      var path := MergePathMatchConditions(all);
      var headers := MergeHeaderMatchConditions(all);
      r := new RoutePtr(Route(path, headers, "", [], None, None, spec.redirect,
                              root.enforceTLS && !(spec.permitInsecure && !env.disablePermitInsecure), spec.policy));
    }

    /** Prefix replacement, if any is asked for. */
    method SetRewrite(r: RoutePtr, routingPrefix: string, rs: seq<Replacement>) returns (issue: Option<Issue>)
      modifies r
      ensures issue.Some? <==> rs != [] && !ReplacementsOk(rs)
      ensures issue.Some? ==> issue.value == ReplacementIssue(rs)
      ensures issue.None? && rs != [] ==> r.route == old(r.route).(rewrite := RewriteFor(rs, routingPrefix))
      ensures rs == [] ==> r.route == old(r.route)
    {
      if |rs| == 0 {
        return None;
      }
      issue := PrefixReplacementsAreValid(rs);
      if issue.None? {
        var rewrite := PrefixRewrite(rs, routingPrefix);
        r.route := r.route.(rewrite := rewrite);
      }
    }

    /** What is set last: the response without clusters, and the match of a wildcard host. */
    method Complete(r: RoutePtr, root: Root, spec: RouteSpec)
      modifies r
      ensures r.route == old(r.route).(
                directResponse := if old(r.route).clusters == [] && spec.redirect.None? then Some(503)
                  else old(r.route).directResponse,
                headers := old(r.route).headers + WildcardMatch(root.fqdn))
    {
      if |r.route.clusters| == 0 && spec.redirect.None? {
        r.route := r.route.(directResponse := Some(503));
      }
      if "*." <= root.fqdn {
        r.route := r.route.(headers := r.route.headers + WildcardMatch(root.fqdn));
      }
    }

    /** A route whose early checks have passed: it is made, then filled in place. */
    method BuildChecked(i: nat, name: Name, ns: string, root: Root, all: seq<MatchCondition>, spec: RouteSpec,
                        ghost conds: seq<MatchCondition>, ghost b: Built)
      returns (made: Option<RoutePtr>)
      requires Ready(i, name) && all == conds + spec.conditions && EarlyIssue(conds, spec).None?
      requires IsBuilt(b, env, root, ns, conds, spec)
      modifies cache
      ensures Ready(i, name)
      ensures made.Some? <==> b.route.Some?
      ensures made.Some? ==> fresh(made.value) && made.value.route == b.route.value
      ensures Advanced(env, old(cache.Now()), cache.Now(), i, name, b.issues, b.warnings, [])
    {
      BuiltIs(b, env, root, ns, conds, spec);
      WarnAll(i, name, spec.warnings);
      ghost var warned := cache.Now();
      var r := NewRoute(root, all, spec);
      var issue := SetRewrite(r, MergedPrefix(all), spec.replacements);
      if issue.Some? {
        Report(i, name, issue.value);
        WalkAfterWarnings(env, old(cache.Now()), warned, cache.Now(), i, name, spec.warnings, [issue.value], []);
        return None;
      }
      var ok := AddServices(i, name, ns, spec.services, r);
      WalkAfterWarnings(env, old(cache.Now()), warned, cache.Now(), i, name, spec.warnings,
                        WithServices(env, ns, spec.services, NO_CLUSTERS).issues, []);
      if !ok {
        return None;
      }
      Complete(r, root, spec);
      return Some(r);
    }

    /** One pass of the loop over the routes of a proxy. */
    method ComputeRoute(i: nat, name: Name, ns: string, root: Root, conditions: Slice<MatchCondition>, spec: RouteSpec,
                        ghost conds: seq<MatchCondition>, ghost b: Built)
      returns (made: Option<RoutePtr>)
      requires Ready(i, name) && conditions.Valid() && conditions.Contents() == conds
      requires IsBuilt(b, env, root, ns, conds, spec)
      modifies cache, conditions.arr
      ensures Ready(i, name) && conditions.Contents() == conds
      ensures made.Some? <==> b.route.Some?
      ensures made.Some? ==> fresh(made.value) && made.value.route == b.route.value
      ensures Advanced(env, old(cache.Now()), cache.Now(), i, name, b.issues, b.warnings, [])
    {
      var err := PathMatchConditionsValid(spec.conditions);
      if err.Some? {
        BuiltEarly(b, env, root, ns, conds, spec, Issue(RouteError, PathMatchConditionsNotValid));
        Report(i, name, Issue(RouteError, PathMatchConditionsNotValid));
        return None;
      }
      var routeConditions := Append(conditions, spec.conditions);
      var all := routeConditions.arr[..routeConditions.len];
      var issue := CheckRoute(all, spec, conds);
      if issue.Some? {
        BuiltEarly(b, env, root, ns, conds, spec, issue.value);
        Report(i, name, issue.value);
        return None;
      }
      made := BuildChecked(i, name, ns, root, all, spec, conds, b);
    }

    /** One pass of the loop over the routes of a proxy: a route more, or none at all. */
    method AppendRoute(i: nat, name: Name, ns: string, root: Root, conditions: Slice<MatchCondition>, spec: RouteSpec,
                       own: seq<RoutePtr>,
                       ghost conds: seq<MatchCondition>, ghost b: Built)
      returns (ok: bool, own': seq<RoutePtr>)
      requires Ready(i, name) && conditions.Valid() && conditions.Contents() == conds && Distinct(own)
      requires IsBuilt(b, env, root, ns, conds, spec)
      modifies cache, conditions.arr
      ensures Ready(i, name) && conditions.Contents() == conds
      ensures ok <==> b.route.Some?
      ensures ok ==> Distinct(own') && Values(own') == old(Values(own)) + [b.route.value]
      ensures Advanced(env, old(cache.Now()), cache.Now(), i, name, b.issues, b.warnings, [])
      ensures forall p :: p in own' ==> p in own || fresh(p)
    {
      var made := ComputeRoute(i, name, ns, root, conditions, spec, conds, b);
      if made.None? {
        return false, [];
      }
      own' := own + [made.value];
      ok := true;
    }

    /** Pass k, on top of what those before it have built and reported since the state st. */
    method NextRoute(i: nat, name: Name, ns: string, root: Root, conditions: Slice<MatchCondition>,
                     specs: seq<RouteSpec>, k: nat, own: seq<RoutePtr>,
                     ghost conds: seq<MatchCondition>, ghost st: CacheState, ghost all: Summary, ghost rest: Summary,
                     ghost es: seq<Issue>, ghost ws: seq<Issue>)
      returns (ok: bool, own': seq<RoutePtr>, ghost rest': Summary, ghost es': seq<Issue>, ghost ws': seq<Issue>)
      requires Ready(i, name) && conditions.Valid() && conditions.Contents() == conds && Distinct(own) && k < |specs|
      requires IsSummary(rest, env, root, ns, conds, specs[k..]) && SoFar(all, Values(own), es, ws, rest)
      requires Sound(st) && Advanced(env, st, cache.Now(), i, name, es, ws, [])
      modifies cache, conditions.arr
      ensures Ready(i, name) && conditions.Contents() == conds
      ensures IsSummary(rest', env, root, ns, conds, specs[k + 1..])
      ensures ok ==> Distinct(own') && SoFar(all, Values(own'), es', ws', rest')
      ensures !ok ==> all == Summary(None, es', ws')
      ensures Advanced(env, st, cache.Now(), i, name, es', ws', [])
      ensures forall p :: p in own' ==> p in own || fresh(p)
    {
      ghost var b;
      b, rest' := RouteStep(env, root, ns, conds, specs, k, all, Values(own), es, ws, rest);
      ok, own' := AppendRoute(i, name, ns, root, conditions, specs[k], own, conds, b);
      ReportedOn(env, st, old(cache.Now()), cache.Now(), i, name, es, ws, b.issues, b.warnings);
      es', ws' := es + b.issues, ws + b.warnings;
    }

    /** The loop over the routes of a proxy. */
    method ComputeOwnRoutes(i: nat, name: Name, ns: string, root: Root, conditions: Slice<MatchCondition>,
                            specs: seq<RouteSpec>,
                            ghost conds: seq<MatchCondition>, ghost all: Summary)
      returns (ok: bool, own: seq<RoutePtr>)
      requires Ready(i, name) && conditions.Valid() && conditions.Contents() == conds
      requires IsSummary(all, env, root, ns, conds, specs)
      modifies cache, conditions.arr
      ensures Ready(i, name) && conditions.Contents() == conds
      ensures ok <==> all.own.Some?
      ensures ok ==> Distinct(own) && Values(own) == all.own.value
      ensures Advanced(env, old(cache.Now()), cache.Now(), i, name, all.issues, all.warnings, [])
      ensures forall p :: p in own ==> fresh(p)
    {
      ghost var rest, es: seq<Issue>, ws: seq<Issue> := all, [], [];
      own := [];
      NothingYet(all);
      assert specs[0..] == specs && Values(own) == [];
      AdvancedNowhere(env, cache.Now(), i, name);
      ok := true;
      var k := 0;
      while ok && k < |specs|
        invariant 0 <= k <= |specs| && Ready(i, name) && conditions.Contents() == conds
        invariant forall p :: p in own ==> fresh(p)
        invariant IsSummary(rest, env, root, ns, conds, specs[k..])
        invariant ok ==> Distinct(own) && SoFar(all, Values(own), es, ws, rest)
        invariant !ok ==> all == Summary(None, es, ws)
        invariant Advanced(env, old(cache.Now()), cache.Now(), i, name, es, ws, [])
      {
        ok, own, rest, es, ws :=
          NextRoute(i, name, ns, root, conditions, specs, k, own, conds, old(cache.Now()), all, rest, es, ws);
        k := k + 1;
      }
      if ok {
        NothingLeft(env, root, ns, conds, specs, all, Values(own), es, ws, rest);
      }
    }

    // ----- the walk ------------------------------------------------------------------------------------

    /** The 502 route for an include that is missing. */
    method MissingInclude(inc: Include) returns (routes: seq<RoutePtr>)
      ensures Hold(routes, Placeholder(inc)) && forall q :: q in routes ==> fresh(q)
    {
      if |inc.conditions| == 0 {
        return [];
      }
      var path := MergePathMatchConditions(inc.conditions);
      var headers := MergeHeaderMatchConditions(inc.conditions);
      var r := new RoutePtr(Route(path, headers, "", [], None, Some(502), None, false, 0));
      HoldOne(r);
      return [r];
    }

    /** The checks of one include, in order. */
    method CheckInclude(p: Proxy, inc: Include) returns (outcome: Outcome)
      ensures outcome == OutcomeOf(env, p, inc)
    {
      var pathErr := PathMatchConditionsValid(inc.conditions);
      if pathErr.Some? {
        return BadPath;
      }
      var headerErr := HeaderMatchConditionsValid(inc.conditions);
      if headerErr.Some? {
        return BadHeaders;
      }
      var target := TargetOf(p, inc);
      if target !in env.proxies {
        return NotFound;
      }
      if env.proxies[target].vhost.Some? {
        return IsRoot;
      }
      return Follow;
    }

    /** The slices show these conditions and this path. */
    ghost predicate Shows(conditions: Slice<MatchCondition>, visited: Slice<Name>, conds: seq<MatchCondition>,
                          path: seq<Name>)
      reads conditions.arr, visited.arr
    {
      && conditions.Valid() && conditions.Contents() == conds
      && visited.Valid() && visited.Contents() == path
    }

    /** One include of a proxy: checked, and followed or reported. */
    method ComputeInclude(i: nat, name: Name, root: Root, p: Proxy, inc: Include, conditions: Slice<MatchCondition>,
                          visited: Slice<Name>,
                          ghost conds: seq<MatchCondition>, ghost path: seq<Name>, ghost one: Below)
      returns (routes: seq<RoutePtr>)
      requires Ready(i, name) && Shows(conditions, visited, conds, path)
      requires IsOneBelow(one, env, root, p, inc, conds, path)
      modifies this`orphaned, cache, conditions.arr, visited.arr
      ensures Ready(i, name) && Shows(conditions, visited, conds, path)
      ensures Hold(routes, one.routes) && forall q :: q in routes ==> fresh(q)
      ensures orphaned == old(orphaned) - one.visits
      ensures Advanced(env, old(cache.Now()), cache.Now(), i, name, one.issues, [], one.commits)
      decreases env.proxies.Keys - Seen(path), 1
    {
      var outcome := CheckInclude(p, inc);
      if outcome == Follow {
        ghost var w := FollowedIs(one, env, root, p, inc, conds, path);
        routes := FollowFrom(i, name, root, TargetOf(p, inc), inc.conditions, conditions, visited, conds, path, w);
      } else {
        RejectedIs(one, env, root, p, inc, conds, path, outcome);
        routes := RejectInclude(i, name, inc, outcome);
      }
    }

    /** An include that is not followed: an error, and the placeholder if it is missing. */
    method RejectInclude(i: nat, name: Name, inc: Include, outcome: Outcome) returns (routes: seq<RoutePtr>)
      requires Ready(i, name) && outcome != Follow
      modifies cache
      ensures Ready(i, name)
      ensures Hold(routes, if outcome == NotFound then Placeholder(inc) else []) && forall q :: q in routes ==> fresh(q)
      ensures Advanced(env, old(cache.Now()), cache.Now(), i, name, IssueOf(outcome), [], [])
    {
      Report(i, name, IssueOf(outcome)[0]);
      if outcome == NotFound {
        routes := MissingInclude(inc);
      } else {
        routes := [];
      }
    }

    /** An include that is followed, seen from the update of the including proxy. */
    method FollowFrom(i: nat, name: Name, root: Root, target: Name, more: seq<MatchCondition>,
                      conditions: Slice<MatchCondition>, visited: Slice<Name>,
                      ghost conds: seq<MatchCondition>, ghost path: seq<Name>, ghost w: Walk)
      returns (routes: seq<RoutePtr>)
      requires Ready(i, name) && target in env.proxies && Shows(conditions, visited, conds, path)
      requires IsWalk(w, env, root, target, conds + more, path)
      modifies this`orphaned, cache, conditions.arr, visited.arr
      ensures Ready(i, name) && Shows(conditions, visited, conds, path)
      ensures Hold(routes, w.routes) && forall q :: q in routes ==> fresh(q)
      ensures orphaned == old(orphaned) - (w.visits + {env.proxies[target].name})
      ensures Advanced(env, old(cache.Now()), cache.Now(), i, name, [], [],
                       w.commits + [Commit(target, w.issues, w.warnings)])
      decreases env.proxies.Keys - Seen(path), 0, 3
    {
      ghost var cs := w.commits + [Commit(target, w.issues, w.warnings)];
      routes := FollowInclude(root, target, more, conditions, visited, conds, path, w);
      ProgressIsAdvance(env, old(cache.Now()), cache.Now(), i, name, cs);
      StaysOpen(env, old(cache.Now()), cache.Now(), cs, i, name);
    }

    /** The included proxy is walked with more conditions. They may be written behind those
        of its caller, into the same array. */
    method FollowInclude(root: Root, target: Name, more: seq<MatchCondition>, conditions: Slice<MatchCondition>,
                         visited: Slice<Name>,
                         ghost conds: seq<MatchCondition>, ghost path: seq<Name>, ghost w: Walk)
      returns (routes: seq<RoutePtr>)
      requires Sound(cache.Now()) && target in env.proxies && Shows(conditions, visited, conds, path)
      requires IsWalk(w, env, root, target, conds + more, path)
      modifies this`orphaned, cache, conditions.arr, visited.arr
      ensures Shows(conditions, visited, conds, path)
      ensures Hold(routes, w.routes) && forall q :: q in routes ==> fresh(q)
      ensures orphaned == old(orphaned) - (w.visits + {env.proxies[target].name})
      ensures Progressed(env, old(cache.Now()), cache.Now(), w.commits + [Commit(target, w.issues, w.warnings)])
      decreases env.proxies.Keys - Seen(path), 0, 2
    {
      var below := Append(conditions, more);
      routes := ComputeIncluded(root, target, below, visited, conds + more, path, w);
      assert conds == (conds + more)[..|conds|];
      if below.arr == conditions.arr {
        assert conditions.Contents() == below.Contents()[..conditions.len];
      }
    }

    /** After an included proxy has been walked: it is committed, and its name is taken off
        the list. */
    method Settle(acc: nat, target: Name, ghost st: CacheState, ghost time: int, ghost es: seq<Issue>,
                  ghost ws: seq<Issue>, ghost cs: seq<Commit>)
      requires Sound(st) && target in env.proxies && acc == |st.updates|
      requires Advanced(env, Begun(st, target, env.proxies[target].generation, time), cache.Now(), acc, target, es, ws,
                        cs)
      modifies this`orphaned, cache
      ensures Progressed(env, st, cache.Now(), cs + [Commit(target, es, ws)])
      ensures orphaned == old(orphaned) - {env.proxies[target].name}
    {
      WholeUpdate(env, st, cache.Now(), target, time, es, ws, cs);
      cache.Commit(acc);
      orphaned := orphaned - {env.proxies[target].name};
    }

    /** The walk from an included proxy, between opening its status update and committing it. */
    method ComputeIncluded(root: Root, target: Name, conditions: Slice<MatchCondition>, visited: Slice<Name>,
                           ghost conds: seq<MatchCondition>, ghost path: seq<Name>, ghost w: Walk)
      returns (routes: seq<RoutePtr>)
      requires Sound(cache.Now()) && target in env.proxies && Shows(conditions, visited, conds, path)
      requires IsWalk(w, env, root, target, conds, path)
      modifies this`orphaned, cache, conditions.arr, visited.arr
      ensures Shows(conditions, visited, conds, path)
      ensures Hold(routes, w.routes) && forall q :: q in routes ==> fresh(q)
      ensures orphaned == old(orphaned) - (w.visits + {env.proxies[target].name})
      ensures Progressed(env, old(cache.Now()), cache.Now(), w.commits + [Commit(target, w.issues, w.warnings)])
      decreases env.proxies.Keys - Seen(path), 0, 1
    {
      var acc, time := Begin(target);
      routes := ComputeRoutes(acc, root, target, conditions, visited, conds, path, w);
      Settle(acc, target, old(cache.Now()), time, w.issues, w.warnings, w.commits);
    }

    /** One pass of the loop over the includes: routes join those that are there. */
    method AppendInclude(i: nat, name: Name, root: Root, p: Proxy, inc: Include, conditions: Slice<MatchCondition>,
                         visited: Slice<Name>,
                         routes: seq<RoutePtr>, ghost conds: seq<MatchCondition>, ghost path: seq<Name>,
                         ghost before: seq<Route>, ghost one: Below)
      returns (routes': seq<RoutePtr>)
      requires Ready(i, name) && Shows(conditions, visited, conds, path) && Hold(routes, before)
      requires IsOneBelow(one, env, root, p, inc, conds, path)
      modifies this`orphaned, cache, conditions.arr, visited.arr
      ensures Ready(i, name) && Shows(conditions, visited, conds, path)
      ensures Hold(routes', before + one.routes) && forall q :: q in routes' ==> q in routes || fresh(q)
      ensures orphaned == old(orphaned) - one.visits
      ensures Advanced(env, old(cache.Now()), cache.Now(), i, name, one.issues, [], one.commits)
      decreases env.proxies.Keys - Seen(path), 2
    {
      var more := ComputeInclude(i, name, root, p, inc, conditions, visited, conds, path, one);
      HoldConcat(routes, before, more, one.routes);
      routes' := routes + more;
    }

    /** The same, on top of what earlier passes have done since the state st. */
    method NextInclude(i: nat, name: Name, root: Root, p: Proxy, inc: Include, conditions: Slice<MatchCondition>,
                       visited: Slice<Name>,
                       routes: seq<RoutePtr>, ghost conds: seq<MatchCondition>, ghost path: seq<Name>,
                       ghost st: CacheState, ghost listed: set<Name>, ghost done: Below, ghost one: Below)
      returns (routes': seq<RoutePtr>)
      requires Ready(i, name) && Shows(conditions, visited, conds, path) && Hold(routes, done.routes)
      requires IsOneBelow(one, env, root, p, inc, conds, path)
      requires Sound(st) && Advanced(env, st, cache.Now(), i, name, done.issues, [], done.commits)
      requires orphaned == listed - done.visits
      modifies this`orphaned, cache, conditions.arr, visited.arr
      ensures Ready(i, name) && Shows(conditions, visited, conds, path)
      ensures Hold(routes', done.routes + one.routes) && forall q :: q in routes' ==> q in routes || fresh(q)
      ensures orphaned == listed - (done.visits + one.visits)
      ensures Advanced(env, st, cache.Now(), i, name, done.issues + one.issues, [], done.commits + one.commits)
      decreases env.proxies.Keys - Seen(path), 3
    {
      routes' := AppendInclude(i, name, root, p, inc, conditions, visited, routes, conds, path, done.routes, one);
      WalkedOn(env, st, old(cache.Now()), cache.Now(), i, name, done.issues, done.commits, one.issues, one.commits);
      LessTwice(listed, done.visits, one.visits);
    }

    /** The loop over the includes of a proxy. */
    method ComputeIncludes(i: nat, name: Name, root: Root, p: Proxy, conditions: Slice<MatchCondition>,
                           visited: Slice<Name>,
                           ghost conds: seq<MatchCondition>, ghost path: seq<Name>, ghost all: Below)
      returns (routes: seq<RoutePtr>)
      requires Ready(i, name) && Shows(conditions, visited, conds, path)
      requires IsAllBelow(all, env, root, p, p.includes, conds, path)
      modifies this`orphaned, cache, conditions.arr, visited.arr
      ensures Ready(i, name) && Shows(conditions, visited, conds, path)
      ensures Hold(routes, all.routes) && forall q :: q in routes ==> fresh(q)
      ensures orphaned == old(orphaned) - all.visits
      ensures Advanced(env, old(cache.Now()), cache.Now(), i, name, all.issues, [], all.commits)
      decreases env.proxies.Keys - Seen(path), 4
    {
      routes := [];
      ghost var done, rest := NOTHING, all;
      JoinNothing(all);
      assert p.includes[0..] == p.includes;
      AdvancedNowhere(env, cache.Now(), i, name);
      for k := 0 to |p.includes|
        invariant Ready(i, name) && Shows(conditions, visited, conds, path)
        invariant Hold(routes, done.routes) && forall q :: q in routes ==> fresh(q)
        invariant orphaned == old(orphaned) - done.visits
        invariant Advanced(env, old(cache.Now()), cache.Now(), i, name, done.issues, [], done.commits)
        invariant IsAllBelow(rest, env, root, p, p.includes[k..], conds, path) && all == Join(done, rest)
      {
        ghost var one;
        one, rest := BelowStep(env, root, p, p.includes, k, conds, path, all, done, rest);
        routes := NextInclude(i, name, root, p, p.includes[k], conditions, visited, routes, conds, path,
                              old(cache.Now()), old(orphaned), done, one);
        done := Join(done, one);
      }
      BelowToEnd(env, root, p, p.includes, conds, path, all, done, rest);
    }

    /** The own routes of a proxy, after its includes have been walked since the state st. */
    method OwnAfterIncludes(i: nat, root: Root, name: Name, conditions: Slice<MatchCondition>, routes: seq<RoutePtr>,
                            ghost conds: seq<MatchCondition>, ghost st: CacheState, ghost below: Below,
                            ghost sum: Summary)
      returns (ok: bool, own: seq<RoutePtr>)
      requires Ready(i, name) && name in env.proxies && conditions.Valid() && conditions.Contents() == conds
      requires Hold(routes, below.routes)
      requires IsSummary(sum, env, root, env.proxies[name].name.namespace, conds, env.proxies[name].routes)
      requires Sound(st) && Advanced(env, st, cache.Now(), i, name, below.issues, [], below.commits)
      modifies cache, conditions.arr
      ensures Ready(i, name) && conditions.Contents() == conds
      ensures ok <==> sum.own.Some?
      ensures ok ==> Hold(routes, below.routes) && Hold(own, sum.own.value) && forall q :: q in routes ==> q !in own
      ensures forall q :: q in own ==> fresh(q)
      ensures Advanced(env, st, cache.Now(), i, name, below.issues + sum.issues, sum.warnings, below.commits)
    {
      ok, own := ComputeOwnRoutes(i, name, env.proxies[name].name.namespace, root, conditions,
                                  env.proxies[name].routes, conds, sum);
      RoutesAfterIncludes(env, st, old(cache.Now()), cache.Now(), i, name, below.issues, below.commits, sum.issues,
                          sum.warnings);
    }

    /** The routes of the includes of a proxy and, unless one of them fails, its own. */
    method CollectRoutes(i: nat, root: Root, name: Name, conditions: Slice<MatchCondition>, visited: Slice<Name>,
                         ghost conds: seq<MatchCondition>, ghost path: seq<Name>, ghost below: Below,
                         ghost sum: Summary)
      returns (ok: bool, routes: seq<RoutePtr>, own: seq<RoutePtr>)
      requires Ready(i, name) && name in env.proxies && Shows(conditions, visited, conds, path)
      requires IsAllBelow(below, env, root, env.proxies[name], env.proxies[name].includes, conds, path)
      requires IsSummary(sum, env, root, env.proxies[name].name.namespace, conds, env.proxies[name].routes)
      modifies this`orphaned, cache, conditions.arr, visited.arr
      ensures Ready(i, name) && Shows(conditions, visited, conds, path)
      ensures ok <==> sum.own.Some?
      ensures ok ==> Hold(routes, below.routes) && Hold(own, sum.own.value) && forall q :: q in routes ==> q !in own
      ensures (forall q :: q in routes ==> fresh(q)) && forall q :: q in own ==> fresh(q)
      ensures orphaned == old(orphaned) - below.visits
      ensures Advanced(env, old(cache.Now()), cache.Now(), i, name, below.issues + sum.issues, sum.warnings,
                       below.commits)
      decreases env.proxies.Keys - Seen(path), 5
    {
      routes := ComputeIncludes(i, name, root, env.proxies[name], conditions, visited, conds, path, below);
      ok, own := OwnAfterIncludes(i, root, name, conditions, routes, conds, old(cache.Now()), below, sum);
    }

    /** All routes of a proxy are expanded together. */
    method ExpandHeld(routes: seq<RoutePtr>, ghost x: seq<Route>) returns (expanded: seq<RoutePtr>)
      requires Hold(routes, x) && AllPrefix(x)
      modifies routes
      ensures Hold(expanded, Expand(x))
      ensures forall q :: q in expanded ==> q in routes || fresh(q)
    {
      ExpandPermutation(x, Values(routes));
      expanded := ExpandPrefixMatches(routes);
    }

    /** The same in one list. */
    method CollectAll(i: nat, root: Root, name: Name, conditions: Slice<MatchCondition>, visited: Slice<Name>,
                      ghost conds: seq<MatchCondition>, ghost path: seq<Name>, ghost below: Below, ghost sum: Summary)
      returns (ok: bool, all: seq<RoutePtr>)
      requires Ready(i, name) && name in env.proxies && Shows(conditions, visited, conds, path)
      requires IsAllBelow(below, env, root, env.proxies[name], env.proxies[name].includes, conds, path)
      requires IsSummary(sum, env, root, env.proxies[name].name.namespace, conds, env.proxies[name].routes)
      modifies this`orphaned, cache, conditions.arr, visited.arr
      ensures Ready(i, name) && Shows(conditions, visited, conds, path)
      ensures ok <==> sum.own.Some?
      ensures ok ==> Hold(all, below.routes + sum.own.value)
      ensures fresh(all)
      ensures orphaned == old(orphaned) - below.visits
      ensures Advanced(env, old(cache.Now()), cache.Now(), i, name, below.issues + sum.issues, sum.warnings,
                       below.commits)
      decreases env.proxies.Keys - Seen(path), 6
    {
      var routes, own;
      ok, routes, own := CollectRoutes(i, root, name, conditions, visited, conds, path, below, sum);
      all := routes + own;
      AllFresh(all);
      if ok {
        HoldConcat(routes, below.routes, own, sum.own.value);
      }
    }

    /** The walk of a proxy that is not on the path yet and whose includes are in order. */
    method ComputeBody(i: nat, root: Root, name: Name, conditions: Slice<MatchCondition>, visited: Slice<Name>,
                       ghost conds: seq<MatchCondition>, ghost path: seq<Name>, ghost below: Below, ghost sum: Summary,
                       ghost w: Walk)
      returns (routes: seq<RoutePtr>)
      requires Ready(i, name) && name in env.proxies && Shows(conditions, visited, conds, path)
      requires IsAllBelow(below, env, root, env.proxies[name], env.proxies[name].includes, conds, path)
      requires IsSummary(sum, env, root, env.proxies[name].name.namespace, conds, env.proxies[name].routes)
      requires Composes(w, below, sum)
      modifies this`orphaned, cache, conditions.arr, visited.arr
      ensures Ready(i, name) && Shows(conditions, visited, conds, path)
      ensures Hold(routes, w.routes) && forall q :: q in routes ==> fresh(q)
      ensures orphaned == old(orphaned) - w.visits
      ensures Advanced(env, old(cache.Now()), cache.Now(), i, name, w.issues, w.warnings, w.commits)
      decreases env.proxies.Keys - Seen(path), 7
    {
      var ok, all := CollectAll(i, root, name, conditions, visited, conds, path, below, sum);
      if !ok {
        return [];
      }
      routes := ExpandHeld(all, below.routes + sum.own.value);
    }

    /** The rest of computeRoutes once the proxy is at the end of the path. */
    method WalkIncludes(i: nat, root: Root, name: Name, conditions: Slice<MatchCondition>, visited: Slice<Name>,
                        ghost conds: seq<MatchCondition>, ghost path: seq<Name>, ghost w: Walk)
      returns (routes: seq<RoutePtr>)
      requires Ready(i, name) && name in env.proxies && name !in path
      requires Shows(conditions, visited, conds, path + [name])
      requires IsWalk(w, env, root, name, conds, path)
      modifies this`orphaned, cache, conditions.arr, visited.arr
      ensures Ready(i, name) && Shows(conditions, visited, conds, path + [name])
      ensures Hold(routes, w.routes) && forall q :: q in routes ==> fresh(q)
      ensures orphaned == old(orphaned) - w.visits
      ensures Advanced(env, old(cache.Now()), cache.Now(), i, name, w.issues, w.warnings, w.commits)
      decreases env.proxies.Keys - Seen(path + [name]), 8
    {
      var identical := IncludeMatchConditionsIdentical(env.proxies[name].includes);
      if identical {
        WalkStops(w, env, root, name, conds, path);
        Report(i, name, DUPLICATE_CONDITIONS);
        return [];
      }
      ghost var below, sum := WalkUnfolds(w, env, root, name, conds, path);
      routes := ComputeBody(i, root, name, conditions, visited, conds, path + [name], below, sum, w);
    }

    /** computeRoutes: the routes of a proxy and of everything that it includes. */
    method ComputeRoutes(i: nat, root: Root, name: Name, conditions: Slice<MatchCondition>, visited: Slice<Name>,
                         ghost conds: seq<MatchCondition>, ghost path: seq<Name>, ghost w: Walk)
      returns (routes: seq<RoutePtr>)
      requires Ready(i, name) && name in env.proxies && Shows(conditions, visited, conds, path)
      requires IsWalk(w, env, root, name, conds, path)
      modifies this`orphaned, cache, conditions.arr, visited.arr
      ensures Ready(i, name) && Shows(conditions, visited, conds, path)
      ensures Hold(routes, w.routes) && forall q :: q in routes ==> fresh(q)
      ensures orphaned == old(orphaned) - w.visits
      ensures Advanced(env, old(cache.Now()), cache.Now(), i, name, w.issues, w.warnings, w.commits)
      decreases env.proxies.Keys - Seen(path), 0, 0
    {
      var found := OnPath(name, visited);
      if found {
        WalkStops(w, env, root, name, conds, path);
        Report(i, name, CYCLE);
        return [];
      }
      var visited' := Append(visited, [name]);
      SeenGrows(env.proxies.Keys, path, name);
      routes := WalkIncludes(i, root, name, conditions, visited', conds, path, w);
      assert path == (path + [name])[..|path|];
      if visited'.arr == visited.arr {
        assert visited.Contents() == visited'.Contents()[..visited.len];
      }
    }

    // ----- TCP proxies -------------------------------------------------------------------------------------

    /** The loop over the services of a TCP proxy. */
    method TCPServices(ns: string, refs: seq<ServiceRef>) returns (out: TCPClusters)
      ensures out == WithTCPServices(env, ns, refs, TCPClusters([], None))
    {
      out := TCPClusters([], None);
      for k := 0 to |refs|
        invariant out.failure.None?
        invariant WithTCPServices(env, ns, refs, TCPClusters([], None)) == WithTCPServices(env, ns, refs[k..], out)
      {
        var s := EnsureService(env.services, Name(ns, refs[k].name), refs[k].port, env.externalNames);
        if s.None? {
          return out.(failure := Some(TCP_UNRESOLVED));
        }
        var protocol := GetProtocol(refs[k], s.value);
        if protocol.None? {
          return out.(failure := Some(UNSUPPORTED));
        }
        out := out.(clusters := out.clusters + [Cluster(s.value, protocol.value, refs[k].weight, refs[k].policy)]);
      }
    }

    /** What is to be done for a TCP stanza that has passed the first check. */
    method TCPStepFor(p: Proxy) returns (step: TCPStep)
      requires p.tcp.Some? && !(p.tcp.value.services != [] && TCPIncludeOf(p.tcp.value).Some?)
      ensures step == TCPStepOf(env, p)
    {
      var t := p.tcp.value;
      var incl := t.incl;
      if incl.None? {
        incl := t.inclDeprecated;
      }
      if |t.services| > 0 {
        var cs := TCPServices(p.name.namespace, t.services);
        if cs.failure.Some? {
          return TCPFail(cs.failure.value);
        }
        return TCPServe(cs.clusters);
      }
      if incl.None? {
        return TCPFail(Issue(TCPProxyError, NothingDefined));
      }
      var dest := Qualified(p, incl.value.namespace, incl.value.name);
      if dest !in env.proxies {
        return TCPFail(Issue(TCPProxyIncludeError, IncludeNotFound));
      }
      if env.proxies[dest].vhost.Some? {
        return TCPFail(Issue(TCPProxyIncludeError, RootIncludesRoot));
      }
      return TCPFollow(dest);
    }

    /** A TCP include is followed, unless it leads back onto the path. */
    method FollowTCP(i: nat, name: Name, dest: Name, visited: Slice<Name>, host: string, ghost path: seq<Name>,
                     ghost t: TCPWhole)
      returns (ok: bool)
      requires Ready(i, name) && dest in env.proxies && visited.Valid() && visited.Contents() == path
      requires IsTCPOnward(t, env, dest, path)
      modifies this`orphaned, this`tcpProxies, cache, visited.arr
      ensures Ready(i, name) && visited.Contents() == path
      ensures ok == t.result.ok && orphaned == old(orphaned) - t.visits
      ensures tcpProxies == WithTCP(old(tcpProxies), host, t.result.clusters)
      ensures Advanced(env, old(cache.Now()), cache.Now(), i, name, t.issues, [], t.commits)
      decreases env.proxies.Keys - Seen(path), 2
    {
      orphaned := orphaned - {dest};
      var found := OnPath(dest, visited);
      if found {
        OnwardStops(t, env, dest, path);
        Report(i, name, TCP_CYCLE);
        return false;
      }
      ghost var inner := OnwardIs(t, env, dest, path);
      var acc, time := Begin(dest);
      ok := ProcessTCPProxy(acc, dest, visited, host, path, inner);
      WholeUpdate(env, old(cache.Now()), cache.Now(), dest, time, inner.issues, TCPWarnings(env.proxies[dest]),
                  inner.commits);
      cache.Commit(acc);
      ProgressIsAdvance(env, old(cache.Now()), cache.Now(), i, name, t.commits);
      LessTwice(old(orphaned), {dest}, inner.visits);
    }

    /** processHTTPProxyTCPProxy */
    method ProcessTCPProxy(i: nat, name: Name, visited: Slice<Name>, host: string, ghost path: seq<Name>,
                           ghost t: TCPWhole)
      returns (ok: bool)
      requires Ready(i, name) && name in env.proxies && name !in path && visited.Valid() && visited.Contents() == path
      requires IsTCPWhole(t, env, name, path)
      modifies this`orphaned, this`tcpProxies, cache, visited.arr
      ensures Ready(i, name) && visited.Contents() == path
      ensures ok == t.result.ok && orphaned == old(orphaned) - t.visits
      ensures tcpProxies == WithTCP(old(tcpProxies), host, t.result.clusters)
      ensures Advanced(env, old(cache.Now()), cache.Now(), i, name, t.issues, TCPWarnings(env.proxies[name]), t.commits)
      decreases env.proxies.Keys - Seen(path), 1
    {
      var p := env.proxies[name];
      if p.tcp.None? {
        TCPEndsHere(t, env, name, path, TCPNothing);
        AdvancedNowhere(env, cache.Now(), i, name);
        return true;
      }
      if |p.tcp.value.services| > 0 && TCPIncludeOf(p.tcp.value).Some? {
        TCPEndsHere(t, env, name, path, TCPFail(Issue(TCPProxyError, NoServicesAndInclude)));
        Report(i, name, Issue(TCPProxyError, NoServicesAndInclude));
        return false;
      }
      WarnAll(i, name, p.tcp.value.warnings);
      ghost var warned := cache.Now();
      ok := TakeTCPStep(i, name, visited, host, path, t);
      WalkAfterWarnings(env, old(cache.Now()), warned, cache.Now(), i, name, TCPWarnings(p), t.issues, t.commits);
    }

    method TakeTCPStep(i: nat, name: Name, visited: Slice<Name>, host: string, ghost path: seq<Name>,
                       ghost t: TCPWhole) returns (ok: bool)
      requires Ready(i, name) && name in env.proxies && name !in path && visited.Valid() && visited.Contents() == path
      requires var p := env.proxies[name];
               p.tcp.Some? && !(p.tcp.value.services != [] && TCPIncludeOf(p.tcp.value).Some?)
      requires IsTCPWhole(t, env, name, path)
      modifies this`orphaned, this`tcpProxies, cache, visited.arr
      ensures Ready(i, name) && visited.Contents() == path
      ensures ok == t.result.ok && orphaned == old(orphaned) - t.visits
      ensures tcpProxies == WithTCP(old(tcpProxies), host, t.result.clusters)
      ensures Advanced(env, old(cache.Now()), cache.Now(), i, name, t.issues, [], t.commits)
      decreases env.proxies.Keys - Seen(path), 0
    {
      var step := TCPStepFor(env.proxies[name]);
      if step.TCPFollow? {
        TCPGoesOn(t, env, name, path, step);
        SeenGrows(env.proxies.Keys, path, name);
        ok := ExtendTCP(i, name, step.target, visited, host, path, t);
      } else {
        TCPEndsHere(t, env, name, path, step);
        ok := EndTCP(i, name, host, step);
      }
    }

    /** The path is extended by the current proxy; its name may be written behind the path of
        the caller, into the same array. */
    method ExtendTCP(i: nat, name: Name, dest: Name, visited: Slice<Name>, host: string, ghost path: seq<Name>,
                     ghost t: TCPWhole)
      returns (ok: bool)
      requires Ready(i, name) && dest in env.proxies && visited.Valid() && visited.Contents() == path
      requires IsTCPOnward(t, env, dest, path + [name])
      modifies this`orphaned, this`tcpProxies, cache, visited.arr
      ensures Ready(i, name) && visited.Contents() == path
      ensures ok == t.result.ok && orphaned == old(orphaned) - t.visits
      ensures tcpProxies == WithTCP(old(tcpProxies), host, t.result.clusters)
      ensures Advanced(env, old(cache.Now()), cache.Now(), i, name, t.issues, [], t.commits)
      decreases env.proxies.Keys - Seen(path + [name]), 3
    {
      var visited' := Append(visited, [name]);
      ok := FollowTCP(i, name, dest, visited', host, path + [name], t);
      assert path == (path + [name])[..|path|];
      if visited'.arr == visited.arr {
        assert visited.Contents() == visited'.Contents()[..visited.len];
      }
    }

    /** The walk stays at a proxy: it has services, or an error. */
    method EndTCP(i: nat, name: Name, host: string, step: TCPStep) returns (ok: bool)
      requires Ready(i, name) && !step.TCPFollow?
      modifies this`tcpProxies, cache
      ensures Ready(i, name)
      ensures var t := TCPHere(step);
              && ok == t.result.ok && tcpProxies == WithTCP(old(tcpProxies), host, t.result.clusters)
              && Advanced(env, old(cache.Now()), cache.Now(), i, name, t.issues, [], [])
    {
      AdvancedNowhere(env, cache.Now(), i, name);
      match step
      case TCPFail(issue) =>
        Report(i, name, issue);
        ok := false;
      case TCPServe(cs) =>
        tcpProxies := tcpProxies[host := cs];
        ok := true;
      case _ =>
        ok := true;
    }

    // ----- one proxy ----------------------------------------------------------------------------------------

    /** addRoutes, on the routes of one host. */
    method AddRoutes(m: Routes, ptrs: seq<RoutePtr>) returns (out: Routes)
      ensures out == Added(m, Values(ptrs))
    {
      out := m;
      for k := 0 to |ptrs|
        invariant out == Added(m, Values(ptrs)[..k])
      {
        var key := ConditionsToString(ptrs[k].route);
        out := out[key := ptrs[k].route];
        assert Values(ptrs)[..k + 1][..k] == Values(ptrs)[..k];
      }
      assert Values(ptrs)[..|ptrs|] == Values(ptrs);
    }

    /** The walk over the routes of a root starts with nothing. */
    method RootRoutes(i: nat, root: Root, name: Name, ghost w: Walk) returns (routes: seq<RoutePtr>)
      requires Ready(i, name) && name in env.proxies && IsWalk(w, env, root, name, [], [])
      modifies this`orphaned, cache
      ensures Ready(i, name) && Hold(routes, w.routes)
      ensures orphaned == old(orphaned) - w.visits
      ensures Advanced(env, old(cache.Now()), cache.Now(), i, name, w.issues, w.warnings, w.commits)
    {
      var conditions: Slice<MatchCondition> := Nil();
      var visited: Slice<Name> := Nil();
      routes := ComputeRoutes(i, root, name, conditions, visited, [], [], w);
    }

    method AddInsecure(host: string, routes: seq<RoutePtr>)
      modifies this`insecure
      ensures insecure == Grown(old(insecure), host, Values(routes))
    {
      var m := AddRoutes(RoutesOf(insecure, host), routes);
      insecure := insecure[host := m];
    }

    method AddSecure(host: string, routes: seq<RoutePtr>)
      modifies this`secure
      ensures secure == Grown(old(secure), host, Values(routes))
    {
      var m := AddRoutes(RoutesOf(secure, host), routes);
      secure := secure[host := m];
    }

    /** The hosts of a root are given its routes, unless its last checks fail. */
    method Publish(i: nat, name: Name, p: Proxy, routes: seq<RoutePtr>) returns (ghost added: seq<Route>)
      requires Ready(i, name) && p.vhost.Some?
      modifies this`insecure, this`secure, cache
      ensures Ready(i, name)
      ensures added == if p.vhost.value.laterCheck.Some? then [] else old(Values(routes))
      ensures insecure == Grown(old(insecure), p.vhost.value.fqdn, added)
      ensures secure == if p.vhost.value.laterCheck.None? && p.vhost.value.tls.Some? && p.tcp.None?
                        then Grown(old(secure), p.vhost.value.fqdn, added) else old(secure)
      ensures Advanced(env, old(cache.Now()), cache.Now(), i, name, LaterIssues(p), [], [])
    {
      var host := p.vhost.value.fqdn;
      AdvancedNowhere(env, cache.Now(), i, name);
      if p.vhost.value.laterCheck.Some? {
        AddInsecure(host, []);
        assert Values([]) == [];
        Report(i, name, p.vhost.value.laterCheck.value);
        return [];
      }
      added := Values(routes);
      AddInsecure(host, routes);
      if p.vhost.value.tls.Some? && p.tcp.None? {
        AddSecure(host, routes);
      }
    }

    /** The routes of a root are computed and given to its hosts. */
    method WalkRoutes(i: nat, name: Name, ghost w: Walk) returns (ghost added: seq<Route>)
      requires Ready(i, name) && IsRootProxy(env, name) && IsWalk(w, env, RootOf(env.proxies[name]), name, [], [])
      modifies this`orphaned, this`insecure, this`secure, cache
      ensures Ready(i, name)
      ensures var p, root := env.proxies[name], RootOf(env.proxies[name]);
              && multiset(added) == multiset(if p.vhost.value.laterCheck.Some? then [] else w.routes)
              && orphaned == old(orphaned) - w.visits
              && insecure == Grown(old(insecure), root.fqdn, added)
              && secure == (if p.vhost.value.laterCheck.None? && root.enforceTLS && p.tcp.None?
                            then Grown(old(secure), root.fqdn, added) else old(secure))
              && Advanced(env, old(cache.Now()), cache.Now(), i, name, w.issues + LaterIssues(p), w.warnings, w.commits)
    {
      var p, root := env.proxies[name], RootOf(env.proxies[name]);
      var routes := RootRoutes(i, root, name, w);
      ghost var mid := cache.Now();
      added := Publish(i, name, p, routes);
      ErrorsAfterWalk(env, old(cache.Now()), mid, cache.Now(), i, name, w.issues, w.warnings, w.commits,
                      LaterIssues(p));
    }

    ghost function HostsNow(): (h: Hosts)
      reads this
    {
      Hosts(insecure, secure, tcpProxies)
    }

    /** Since a state, a root has been processed with this result, up to its own commit. */
    ghost predicate Came(i: nat, name: Name, r: Processed, st: CacheState, listed: set<Name>, hosts: Hosts,
                         added: seq<Route>)
      requires IsRootProxy(env, name)
      reads this, cache
    {
      CameTo(env, name, r, i, st, cache.Now(), listed, orphaned, hosts, HostsNow(), added)
    }

    /** A root that is refused: nothing but errors. */
    method Refuse(i: nat, name: Name, issue: Issue)
      requires Ready(i, name) && IsRootProxy(env, name)
      modifies cache
      ensures Ready(i, name)
      ensures Came(i, name, Refused([issue]), old(cache.Now()), old(orphaned), old(HostsNow()), [])
    {
      Report(i, name, issue);
    }

    method RootWithoutTCP(i: nat, name: Name) returns (ghost added: seq<Route>)
      requires Ready(i, name) && IsRootProxy(env, name)
      modifies this`orphaned, this`insecure, this`secure, cache
      ensures Ready(i, name)
      ensures Came(i, name, RoutesPart(env, name), old(cache.Now()), old(orphaned), old(HostsNow()), added)
    {
      ghost var w := MakeWalk(env, RootOf(env.proxies[name]), name, [], []);
      RoutesPartIs(env, name);
      added := WalkRoutes(i, name, w);
    }

    /** The walk over the TCP includes of a root starts with nothing. */
    method RootTCP(i: nat, name: Name) returns (ok: bool)
      requires Ready(i, name) && IsRootProxy(env, name)
      modifies this`orphaned, this`tcpProxies, cache
      ensures Ready(i, name)
      ensures var t := TCPWholeOf(env, name, []);
              && ok == t.result.ok && orphaned == old(orphaned) - t.visits
              && tcpProxies == WithTCP(old(tcpProxies), env.proxies[name].vhost.value.fqdn, t.result.clusters)
              && (!ok ==> t.result.clusters.None?)
              && Advanced(env, old(cache.Now()), cache.Now(), i, name, t.issues, TCPWarnings(env.proxies[name]),
                          t.commits)
    {
      var visited: Slice<Name> := Nil();
      ok := ProcessTCPProxy(i, name, visited, env.proxies[name].vhost.value.fqdn, [], TCPWholeOf(env, name, []));
      if !ok {
        NoClustersOnFailure(env, name, []);
      }
    }

    method RootWithTCP(i: nat, name: Name) returns (ghost added: seq<Route>)
      requires Ready(i, name) && IsRootProxy(env, name)
      requires env.proxies[name].tcp.Some? && env.proxies[name].vhost.value.tls.Some?
      modifies this, cache
      ensures Ready(i, name)
      ensures Came(i, name, Walked(env, name, []), old(cache.Now()), old(orphaned), old(HostsNow()), added)
    {
      WalkWithTCP(env, name);
      var ok := RootTCP(i, name);
      if !ok {
        TCPPartIs(env, name, Walked(env, name, []));
        return [];
      }
      ghost var mid, listed, hosts := cache.Now(), orphaned, HostsNow();
      added := RootWithoutTCP(i, name);
      RoutesAfterTCP(env, name, i, old(cache.Now()), mid, cache.Now(), old(orphaned), listed, orphaned,
                     old(HostsNow()), hosts, HostsNow(), added);
    }

    method ReportAll(i: nat, name: Name, issues: seq<Issue>)
      requires Ready(i, name)
      modifies cache
      ensures Ready(i, name)
      ensures Advanced(env, old(cache.Now()), cache.Now(), i, name, issues, [], [])
    {
      AdvancedNowhere(env, cache.Now(), i, name);
      for k := 0 to |issues|
        invariant Ready(i, name)
        invariant Advanced(env, old(cache.Now()), cache.Now(), i, name, issues[..k], [], [])
      {
        ghost var mid := cache.Now();
        Report(i, name, issues[k]);
        ErrorsAfterWalk(env, old(cache.Now()), mid, cache.Now(), i, name, issues[..k], [], [], [issues[k]]);
        assert issues[..k + 1] == issues[..k] + [issues[k]];
      }
      assert issues[..|issues|] == issues;
    }

    method CheckGate(p: Proxy) returns (issue: Option<Issue>)
      requires p.vhost.Some?
      ensures issue == GateIssue(env, p)
    {
      if IsBlank(p.vhost.value.fqdn) {
        return Some(Issue(VirtualHostError, FQDNNotSpecified));
      }
      var allowed := NamespaceAllowed(env, p.name.namespace);
      if !allowed {
        return Some(Issue(RootNamespaceError, RootProxyNotAllowedInNamespace));
      }
      if |p.routes| == 0 && |p.includes| == 0 && p.tcp.None? {
        return Some(Issue(SpecError, NothingDefined));
      }
      return None;
    }

    /** A root after its TLS checks: TCP first, then the routes. */
    method WalkRoot(i: nat, name: Name) returns (ghost added: seq<Route>)
      requires Ready(i, name) && IsRootProxy(env, name)
      modifies this, cache
      ensures Ready(i, name)
      ensures Came(i, name, Walked(env, name, []), old(cache.Now()), old(orphaned), old(HostsNow()), added)
    {
      var p := env.proxies[name];
      if p.tcp.None? {
        WalkWithoutTCP(env, name);
        added := RootWithoutTCP(i, name);
        return;
      }
      if p.vhost.value.tls.None? {
        assert [] + [TLS_MISSING] == [TLS_MISSING];
        Refuse(i, name, TLS_MISSING);
        return [];
      }
      added := RootWithTCP(i, name);
    }

    /** A root that is allowed: the TLS checks, then the walks. */
    method ProcessAllowed(i: nat, name: Name) returns (ghost added: seq<Route>)
      requires Ready(i, name) && IsRootProxy(env, name) && GateIssue(env, env.proxies[name]).None?
      modifies this, cache
      ensures Ready(i, name)
      ensures Came(i, name, Process(env, name), old(cache.Now()), old(orphaned), old(HostsNow()), added)
    {
      var tls := env.proxies[name].vhost.value.tls;
      var soft := if tls.Some? then tls.value.soft else [];
      ReportAll(i, name, soft);
      ghost var mid := cache.Now();
      if tls.Some? && tls.value.fatal.Some? {
        Refuse(i, name, tls.value.fatal.value);
        SoftThen(env, name, soft, Refused([tls.value.fatal.value]), i, old(cache.Now()), mid, cache.Now(),
                 old(orphaned), orphaned, old(HostsNow()), HostsNow(), []);
        return [];
      }
      added := WalkRoot(i, name);
      SoftErrorsFirst(env, name, soft);
      SoftThen(env, name, soft, Walked(env, name, []), i, old(cache.Now()), mid, cache.Now(),
               old(orphaned), orphaned, old(HostsNow()), HostsNow(), added);
    }

    method ProcessRoot(i: nat, name: Name) returns (ghost added: seq<Route>)
      requires Ready(i, name) && IsRootProxy(env, name)
      modifies this, cache
      ensures Ready(i, name)
      ensures Came(i, name, Process(env, name), old(cache.Now()), old(orphaned), old(HostsNow()), added)
    {
      var issue := CheckGate(env.proxies[name]);
      if issue.Some? {
        Refuse(i, name, issue.value);
        return [];
      }
      added := ProcessAllowed(i, name);
    }

    /** computeHTTPProxy for a root. */
    method ComputeRoot(name: Name) returns (ghost added: seq<Route>)
      requires Sound(cache.Now()) && IsRootProxy(env, name)
      modifies this, cache
      ensures multiset(added) == BagOf(Process(env, name).routes)
      ensures orphaned == old(orphaned) - VisitedFrom(env, name)
      ensures HostsNow() == HostsAfter(old(HostsNow()), env.proxies[name], Process(env, name), added)
      ensures Progressed(env, old(cache.Now()), cache.Now(), CommitsFrom(env, name))
    {
      var acc, time := Begin(name);
      added := ProcessRoot(acc, name);
      ghost var r := Process(env, name);
      WholeUpdate(env, old(cache.Now()), cache.Now(), name, time, r.issues, r.warnings, CommitsIn(env, name, r));
      cache.Commit(acc);
    }

    /** computeHTTPProxy for a proxy without a host: an orphan, for now. */
    method ComputePlain(name: Name)
      requires Sound(cache.Now()) && name in env.proxies && !IsRootProxy(env, name)
      modifies this`orphaned, cache
      ensures orphaned == old(orphaned) + {name}
      ensures Progressed(env, old(cache.Now()), cache.Now(), [Commit(name, [], [])])
    {
      var acc, time := Begin(name);
      AdvancedNowhere(env, cache.Now(), acc, name);
      WholeUpdate(env, old(cache.Now()), cache.Now(), name, time, [], [], []);
      orphaned := orphaned + {name};
      cache.Commit(acc);
      assert [] + [Commit(name, [], [])] == [Commit(name, [], [])];
    }

    /** An update with one error, committed at once. */
    method CommitError(name: Name, issue: Issue)
      requires Sound(cache.Now()) && name in env.proxies
      modifies cache
      ensures Progressed(env, old(cache.Now()), cache.Now(), [Commit(name, [issue], [])])
    {
      var acc, time := Begin(name);
      ghost var begun := cache.Now();
      Report(acc, name, issue);
      WholeUpdate(env, old(cache.Now()), cache.Now(), name, time, [issue], [], []);
      cache.Commit(acc);
      assert [] + [Commit(name, [issue], [])] == [Commit(name, [issue], [])];
    }

    // ----- all proxies ----------------------------------------------------------------------------------------

    /** Every root of a group that shares a host is marked as invalid. */
    method MarkDuplicates(group: seq<Name>)
      requires Sound(cache.Now()) && forall i :: 0 <= i < |group| ==> group[i] in env.proxies
      modifies cache
      ensures Progressed(env, old(cache.Now()), cache.Now(), Duplicates(group))
    {
      NoProgress(env, cache.Now());
      for k := 0 to |group|
        invariant Progressed(env, old(cache.Now()), cache.Now(), Duplicates(group)[..k])
      {
        ghost var mid := cache.Now();
        CommitError(group[k], DUPLICATE_VHOST);
        ProgressedTwice(env, old(cache.Now()), mid, cache.Now(), Duplicates(group)[..k], [Duplicates(group)[k]]);
        assert Duplicates(group)[..k + 1] == Duplicates(group)[..k] + [Duplicates(group)[k]];
      }
      assert Duplicates(group)[..|group|] == Duplicates(group);
    }

    /** The second loop of validHTTPProxies, over the hosts in any order. */
    method PickRoots(ghost plain: seq<Name>, groups: map<string, seq<Name>>)
      returns (roots: seq<Name>, ghost cs: seq<Commit>)
      requires Sound(cache.Now()) && Grouped(env, env.proxies.Keys, plain, groups)
      modifies cache
      ensures Progressed(env, old(cache.Now()), cache.Now(), cs) && Picked(env, groups.Keys, roots, cs)
    {
      roots, cs := [], [];
      var todo := groups.Keys;
      NoProgress(env, cache.Now());
      while todo != {}
        invariant todo <= groups.Keys
        invariant Picked(env, groups.Keys - todo, roots, cs)
        invariant Progressed(env, old(cache.Now()), cache.Now(), cs)
        decreases |todo|
      {
        var key :| key in todo;
        ghost var done := groups.Keys - todo;
        assert groups.Keys - (todo - {key}) == done + {key};
        if |groups[key]| == 1 {
          PickOne(env, plain, groups, done, key, roots, cs);
          roots := roots + [groups[key][0]];
        } else {
          ReportGroup(env, plain, groups, done, key, roots, cs);
          ghost var mid := cache.Now();
          assert forall i :: 0 <= i < |groups[key]| ==> groups[key][i] in groups[key];
          MarkDuplicates(groups[key]);
          ProgressedTwice(env, old(cache.Now()), mid, cache.Now(), cs, Duplicates(groups[key]));
          cs := cs + Duplicates(groups[key]);
        }
        todo := todo - {key};
      }
      assert groups.Keys - {} == groups.Keys;
    }

    /** validHTTPProxies: proxies without a host come before roots. */
    method ValidHTTPProxies()
      returns (valid: seq<Name>, ghost plain: seq<Name>, ghost roots: seq<Name>, ghost cs: seq<Commit>)
      requires Sound(cache.Now())
      modifies cache
      ensures valid == plain + roots && InOrder(env, plain, roots)
      ensures Progressed(env, old(cache.Now()), cache.Now(), cs) && forall c :: c in cs <==> IsDuplicate(env, c)
    {
      var first, groups := GroupByHost(env);
      var rest;
      rest, cs := PickRoots(first, groups);
      AllPicked(env, first, groups, rest, cs);
      plain, roots := first, rest;
      valid := first + rest;
    }

    /** Since a state of the status cache and of the hosts, these proxies have been computed. */
    ghost predicate Computed(names: seq<Name>, st: CacheState, h: Hosts, given: map<Name, seq<Route>>)
      reads this, cache
    {
      Accounted(env, names, st, cache.Now(), orphaned, h, HostsNow(), given)
    }

    method ComputeHTTPProxy(name: Name, ghost names: seq<Name>, ghost st: CacheState, ghost h: Hosts,
                            ghost given: map<Name, seq<Route>>)
      returns (ghost given': map<Name, seq<Route>>)
      requires name in env.proxies && Computed(names, st, h, given)
      requires IsRootProxy(env, name) ==> !HostOfAny(env, names, Fqdn(env, name))
      modifies this, cache
      ensures Computed(names + [name], st, h, given')
    {
      AccountIs(env, names, st, cache.Now(), orphaned, h, HostsNow(), given);
      ListedNext(env, names, name);
      if env.proxies[name].vhost.None? {
        NextPlain(env, names, name, h, HostsNow(), given);
        ComputePlain(name);
        given' := given;
      } else {
        ghost var hosts := HostsNow();
        ghost var added := ComputeRoot(name);
        NextGiven(env, names, name, h, hosts, given, added);
        given' := given[name := added];
      }
      ProgressedTwice(env, st, old(cache.Now()), cache.Now(), CommitsForAll(env, names), CommitsFor(env, name));
      AccountIs(env, names + [name], st, cache.Now(), orphaned, h, HostsNow(), given');
    }

    /** The loop of Run over the proxies that validHTTPProxies returned. */
    method ComputeAll(valid: seq<Name>, ghost plain: seq<Name>, ghost roots: seq<Name>)
      returns (ghost given: map<Name, seq<Route>>)
      requires Sound(cache.Now()) && valid == plain + roots && InOrder(env, plain, roots) && orphaned == {}
      modifies this, cache
      ensures Computed(valid, old(cache.Now()), old(HostsNow()), given)
    {
      given := map[];
      NothingToAccount(env, cache.Now(), HostsNow());
      for k := 0 to |valid|
        invariant Computed(valid[..k], old(cache.Now()), old(HostsNow()), given)
      {
        NextIsApart(env, plain, roots, k);
        given := ComputeHTTPProxy(valid[k], valid[..k], old(cache.Now()), old(HostsNow()), given);
        assert valid[..k + 1] == valid[..k] + [valid[k]];
      }
      assert valid[..|valid|] == valid;
    }

    /** The loop of Run over what is left on the list of orphans. */
    method MarkOrphans() returns (ghost cs: seq<Commit>)
      requires Sound(cache.Now()) && orphaned <= env.proxies.Keys
      modifies cache
      ensures Progressed(env, old(cache.Now()), cache.Now(), cs) && AllOrphans(env, orphaned, cs)
    {
      cs := [];
      NoProgress(env, cache.Now());
      var todo := orphaned;
      while todo != {}
        invariant todo <= orphaned
        invariant Progressed(env, old(cache.Now()), cache.Now(), cs) && AllOrphans(env, orphaned - todo, cs)
        decreases |todo|
      {
        var n :| n in todo;
        ghost var mid := cache.Now();
        CommitError(n, ORPHAN);
        ProgressedTwice(env, old(cache.Now()), mid, cache.Now(), cs, [Commit(n, [ORPHAN], [])]);
        OneMoreOrphan(env, orphaned - todo, n, cs);
        assert orphaned - (todo - {n}) == (orphaned - todo) + {n};
        cs := cs + [Commit(n, [ORPHAN], [])];
        todo := todo - {n};
      }
      assert orphaned - {} == orphaned;
    }

    /** A build: the status cache sees a trace of it, each root with a host of its own has
        given its routes to that host, and other hosts are as before. */
    method Run() returns (ghost cs: seq<Commit>, ghost given: map<Name, seq<Route>>)
      requires Sound(cache.Now())
      modifies this, cache
      ensures IsTrace(env, cs) && Progressed(env, old(cache.Now()), cache.Now(), cs)
      ensures forall n :: IsProcessed(env, n) ==> n in given && Given(env, n, old(HostsNow()), HostsNow(), given[n])
      ensures forall host :: HostOfNone(env, host) ==> SameHost(old(HostsNow()), HostsNow(), host)
    {
      orphaned := {};
      var valid, plain, roots, first := ValidHTTPProxies();
      ghost var mid := cache.Now();
      given := ComputeAll(valid, plain, roots);
      AccountIs(env, valid, mid, cache.Now(), orphaned, old(HostsNow()), HostsNow(), given);
      AllAreGiven(env, plain, roots, old(HostsNow()), HostsNow(), given);
      ListedAreOrphans(env, plain, roots);
      cs := Finish(old(cache.Now()), mid, plain, roots, first);
      orphaned := {};
    }

    /** The last loop of Run, and the account of all commits. */
    method Finish(ghost st: CacheState, ghost mid: CacheState, ghost plain: seq<Name>, ghost roots: seq<Name>,
                  ghost first: seq<Commit>)
      returns (ghost cs: seq<Commit>)
      requires InOrder(env, plain, roots) && orphaned == Orphans(env)
      requires (forall c :: c in first <==> IsDuplicate(env, c))
      requires Progressed(env, st, mid, first) && Progressed(env, mid, cache.Now(), CommitsForAll(env, plain + roots))
      modifies cache
      ensures IsTrace(env, cs) && Progressed(env, st, cache.Now(), cs)
    {
      ghost var now, all := cache.Now(), CommitsForAll(env, plain + roots);
      ghost var last := MarkOrphans();
      RunIsTrace(env, plain, roots, first, last);
      ProgressedTwice(env, st, mid, now, first, all);
      ProgressedTwice(env, st, now, cache.Now(), first + all, last);
      cs := first + all + last;
    }
  }
}
