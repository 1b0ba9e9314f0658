/** What the HTTPProxy processor computes (internal/dag/httpproxy_processor.go), as
    functions of the cached objects: the routes that a proxy gives below a chain of
    includes, the errors that it is given, the proxies that are visited on the way, and
    the status commits that are made. The code itself is in Processor. */
module Compiler {
  import opened Text
  import opened Dag
  import opened Kube
  import opened Conditions
  import opened Expansion
  import opened Issues
  import opened Proxies

  // ----- services of a route -----------------------------------------------------------

  const PORT_INVALID := Issue(ServiceError, ServicePortInvalid)
  const UNRESOLVED := Issue(ServiceError, ServiceUnresolvedReference)
  const UNSUPPORTED := Issue(ServiceError, UnsupportedProtocol)
  const ONE_MIRROR := Issue(ServiceError, OnlyOneMirror)

  /** The clusters of a route so far. `fatal`: the whole call gives up with no routes. */
  datatype Clusters = Clusters(clusters: seq<Cluster>, mirror: Option<Cluster>, issues: seq<Issue>, fatal: bool)

  const NO_CLUSTERS := Clusters([], None, [], false)

  function Stopped(acc: Clusters, issue: Issue): (out: Clusters)
  {
    acc.(issues := acc.issues + [issue], fatal := true)
  }

  /** The protocol to speak: the one named, if it is known, else the service's own. */
  function ProtocolOf(ref: ServiceRef, u: Upstream): (p: Option<string>)
  {
    if ref.protocol.None? then Some(u.protocol)
    else if ref.protocol.value in {"h2c", "h2", "tls"} then ref.protocol
    else None
  }

  function UpstreamOf(env: Env, ns: string, ref: ServiceRef): (u: Option<Upstream>)
  {
    Ensured(env.services, Name(ns, ref.name), ref.port, env.externalNames)
  }

  function WithCluster(acc: Clusters, ref: ServiceRef, c: Cluster): (out: Clusters)
  {
    if ref.mirror && acc.mirror.Some? then Stopped(acc, ONE_MIRROR)
    else if ref.mirror then acc.(mirror := Some(c))
    else acc.(clusters := acc.clusters + [c])
  }

  function WithService(env: Env, ns: string, ref: ServiceRef, acc: Clusters): (out: Clusters)
  {
    if ref.port < 1 || ref.port > 65535 then Stopped(acc, PORT_INVALID)
    else
      var u := UpstreamOf(env, ns, ref);
      if u.None? then acc.(issues := acc.issues + [UNRESOLVED])
      else
        var protocol := ProtocolOf(ref, u.value);
        if protocol.None? then Stopped(acc, UNSUPPORTED)
        else if protocol.value in {"tls", "h2"} && ref.tlsCheck.Some? then Stopped(acc, ref.tlsCheck.value)
        else if ref.check.Some? then Stopped(acc, ref.check.value)
        else WithCluster(acc, ref, Cluster(u.value, protocol.value, ref.weight, ref.policy))
  }

  function WithServices(env: Env, ns: string, refs: seq<ServiceRef>, acc: Clusters): (out: Clusters)
  {
    if refs == [] || acc.fatal then acc else WithServices(env, ns, refs[1..], WithService(env, ns, refs[0], acc))
  }

  // ----- prefix replacement -----------------------------------------------------------------

  /** No prefix is replaced twice. */
  ghost predicate ReplacementsOk(rs: seq<Replacement>)
  {
    forall i, j :: 0 <= i < j < |rs| ==> rs[i].prefix != rs[j].prefix
  }

  ghost function ReplacementIssue(rs: seq<Replacement>): (issue: Issue)
    requires !ReplacementsOk(rs)
  {
    var j := FirstDuplicate(rs, |rs|);
    Issue(PrefixReplaceError, if rs[j].prefix != "" then DuplicateReplacement else AmbiguousReplacement)
  }

  /** The first position whose prefix occurs before it. */
  ghost function FirstDuplicate(rs: seq<Replacement>, n: nat): (j: nat)
    requires n <= |rs| && !ReplacementsOk(rs[..n])
    ensures j < n && ReplacementsOk(rs[..j]) && !ReplacementsOk(rs[..j + 1])
  {
    if n > 0 && !ReplacementsOk(rs[..n - 1]) then FirstDuplicate(rs, n - 1) else n - 1
  }

  /** The replacement of the first entry with a prefix, "" if there is none. */
  function FirstReplacement(rs: seq<Replacement>, prefix: string): (r: string)
  {
    if rs == [] then ""
    else if rs[0].prefix == prefix then rs[0].replacement
    else FirstReplacement(rs[1..], prefix)
  }

  /** The replacement for the routing prefix itself, else the default one. */
  function RewriteFor(rs: seq<Replacement>, routingPrefix: string): (r: string)
  {
    var own := if routingPrefix == "" then "" else FirstReplacement(rs, routingPrefix);
    if own != "" then own else FirstReplacement(rs, "")
  }

  // ----- one route ----------------------------------------------------------------------------

  /** What the root of a chain contributes to every route below it. */
  datatype Root = Root(fqdn: string, enforceTLS: bool)

  function QuoteMeta(s: string): (q: string)
  {
    if s == "" then ""
    else (if s[0] in {'\\', '.', '+', '*', '?', '(', ')', '|', '[', ']', '{', '}', '^', '$'}
          then ['\\', s[0]] else [s[0]]) + QuoteMeta(s[1..])
  }

  /** A wildcard host matches one DNS label only. */
  function WildcardMatch(fqdn: string): (hs: seq<HeaderMatch>)
  {
    if "*." <= fqdn
    then [HeaderMatch(":authority", "^[a-z0-9]([-a-z0-9]*[a-z0-9])?" + QuoteMeta(fqdn[1..]), MatchRegex, false)]
    else []
  }

  /** A route, or none when the call gives up; and what is reported on the way. */
  datatype Built = Built(route: Option<Route>, issues: seq<Issue>, warnings: seq<Issue>)

  function GaveUp(issue: Issue): (b: Built)
  {
    Built(None, [issue], [])
  }

  /** The checks made before a route is put together, in order. */
  ghost function EarlyIssue(conds: seq<MatchCondition>, r: RouteSpec): (issue: Option<Issue>)
  {
    if !PathBlockOk(r.conditions) then Some(Issue(RouteError, PathMatchConditionsNotValid))
    else if !NoRejection(HeadersOf(conds + r.conditions)) then Some(Issue(RouteError, HeaderMatchConditionsNotValid))
    else if r.headersCheck.Some? then r.headersCheck
    else if r.services == [] && r.redirect.None? then Some(Issue(RouteError, NoServicesPresent))
    else r.policyCheck
  }

  /** The route for given clusters. */
  function Assembled(env: Env, root: Root, conds: seq<MatchCondition>, r: RouteSpec, cs: Clusters): (route: Route)
    ensures IsPrefixRoute(route)
  {
    var all := conds + r.conditions;
    Route(Prefix(MergedPrefix(all), StringPrefix),
          MergedHeaders(all) + WildcardMatch(root.fqdn),
          if r.replacements == [] then "" else RewriteFor(r.replacements, MergedPrefix(all)),
          cs.clusters, cs.mirror,
          if cs.clusters == [] && r.redirect.None? then Some(503) else None,
          r.redirect,
          root.enforceTLS && !(r.permitInsecure && !env.disablePermitInsecure),
          r.policy)
  }

  ghost function BuildRoute(env: Env, root: Root, ns: string, conds: seq<MatchCondition>, r: RouteSpec): (b: Built)
    ensures b.route.Some? ==> IsPrefixRoute(b.route.value)
  {
    var early := EarlyIssue(conds, r);
    if early.Some? then GaveUp(early.value)
    else if r.replacements != [] && !ReplacementsOk(r.replacements)
    then GaveUp(ReplacementIssue(r.replacements)).(warnings := r.warnings)
    else
      var cs := WithServices(env, ns, r.services, NO_CLUSTERS);
      if cs.fatal then Built(None, cs.issues, r.warnings)
      else Built(Some(Assembled(env, root, conds, r, cs)), cs.issues, r.warnings)
  }

  /** All routes of a proxy; none if one of them makes the call give up. */
  ghost function OwnRoutes(env: Env, root: Root, ns: string, conds: seq<MatchCondition>,
                           rs: seq<RouteSpec>): (out: Option<seq<Route>>)
    ensures out.Some? ==> AllPrefix(out.value) && |out.value| == |rs|
  {
    if rs == [] then Some([])
    else
      var b := BuildRoute(env, root, ns, conds, rs[0]);
      if b.route.None? then None
      else
        var rest := OwnRoutes(env, root, ns, conds, rs[1..]);
        if rest.None? then None else Some([b.route.value] + rest.value)
  }

  ghost function RouteIssues(env: Env, root: Root, ns: string, conds: seq<MatchCondition>,
                             rs: seq<RouteSpec>): (issues: seq<Issue>)
  {
    if rs == [] then []
    else
      var b := BuildRoute(env, root, ns, conds, rs[0]);
      b.issues + if b.route.None? then [] else RouteIssues(env, root, ns, conds, rs[1..])
  }

  ghost function RouteWarnings(env: Env, root: Root, ns: string, conds: seq<MatchCondition>,
                               rs: seq<RouteSpec>): (warnings: seq<Issue>)
  {
    if rs == [] then []
    else
      var b := BuildRoute(env, root, ns, conds, rs[0]);
      b.warnings + if b.route.None? then [] else RouteWarnings(env, root, ns, conds, rs[1..])
  }

  // ----- includes --------------------------------------------------------------------------------

  /** Two neighbouring includes share a condition; nothing below the proxy is compiled. */
  ghost predicate IncludesIdentical(incs: seq<Include>)
  {
    exists i :: 1 <= i < |incs| && ShareCondition(incs[i].conditions, incs[i - 1].conditions)
  }

  ghost predicate ShareCondition(a: seq<MatchCondition>, b: seq<MatchCondition>)
  {
    exists x, y :: 0 <= x < |a| && 0 <= y < |b| && a[x] == b[y]
  }

  datatype Outcome = BadPath | BadHeaders | NotFound | IsRoot | Follow

  function TargetOf(p: Proxy, inc: Include): (n: Name)
  {
    Qualified(p, inc.namespace, inc.name)
  }

  ghost function OutcomeOf(env: Env, p: Proxy, inc: Include): (o: Outcome)
    ensures o == Follow ==> TargetOf(p, inc) in env.proxies
  {
    if !PathBlockOk(inc.conditions) then BadPath
    else if !NoRejection(HeadersOf(inc.conditions)) then BadHeaders
    else if TargetOf(p, inc) !in env.proxies then NotFound
    else if env.proxies[TargetOf(p, inc)].vhost.Some? then IsRoot
    else Follow
  }

  const CYCLE := Issue(IncludeError, IncludeCreatesCycle)
  const DUPLICATE_CONDITIONS := Issue(IncludeError, DuplicateMatchConditions)

  function IssueOf(o: Outcome): (issues: seq<Issue>)
  {
    match o
    case BadPath => [Issue(IncludeError, PathMatchConditionsNotValid)]
    case BadHeaders => [Issue(RouteError, HeaderMatchConditionsNotValid)]
    case NotFound => [Issue(IncludeError, IncludeNotFound)]
    case IsRoot => [Issue(IncludeError, RootIncludesRoot)]
    case Follow => []
  }

  ghost function IncludeIssues(env: Env, p: Proxy, incs: seq<Include>): (issues: seq<Issue>)
  {
    if incs == [] then [] else IssueOf(OutcomeOf(env, p, incs[0])) + IncludeIssues(env, p, incs[1..])
  }

  /** A missing include answers 502, under its own conditions only. */
  function Placeholder(inc: Include): (routes: seq<Route>)
    ensures AllPrefix(routes)
  {
    if inc.conditions == [] then []
    else [Route(Prefix(MergedPrefix(inc.conditions), StringPrefix), MergedHeaders(inc.conditions), "", [], None,
                Some(502), None, false, 0)]
  }

  ghost function Seen(visited: seq<Name>): (s: set<Name>)
  {
    set n | n in visited
  }

  /** What the walk terminates by: proxies that are not on the path yet. */
  lemma SeenGrows(keys: set<Name>, visited: seq<Name>, name: Name)
    requires name in keys && name !in visited
    ensures Seen(visited + [name]) == Seen(visited) + {name}
    ensures keys - Seen(visited + [name]) < keys - Seen(visited)
  {
    assert name in keys - Seen(visited);
  }

  // ----- the walk: routes --------------------------------------------------------------------------

  /** computeRoutes: the routes of a proxy and of everything it includes, below the
      conditions of the includes that lead to it. */
  ghost function Emit(env: Env, root: Root, name: Name, conds: seq<MatchCondition>,
                      visited: seq<Name>): (out: seq<Route>)
    requires name in env.proxies
    ensures AllPrefix(out)
    decreases env.proxies.Keys - Seen(visited), 0, 0
  {
    if name in visited then []
    else
      var p := env.proxies[name];
      if IncludesIdentical(p.includes) then []
      else
        SeenGrows(env.proxies.Keys, visited, name);
        var below := EmitIncludes(env, root, p, p.includes, conds, visited + [name]);
        var own := OwnRoutes(env, root, p.name.namespace, conds, p.routes);
        if own.None? then [] else Expand(below + own.value)
  }

  ghost function EmitIncludes(env: Env, root: Root, p: Proxy, incs: seq<Include>, conds: seq<MatchCondition>,
                              visited: seq<Name>): (out: seq<Route>)
    ensures AllPrefix(out)
    decreases env.proxies.Keys - Seen(visited), 1, |incs|
  {
    if incs == [] then []
    else
      var first :=
        match OutcomeOf(env, p, incs[0])
        case NotFound => Placeholder(incs[0])
        case Follow => Emit(env, root, TargetOf(p, incs[0]), conds + incs[0].conditions, visited)
        case _ => [];
      first + EmitIncludes(env, root, p, incs[1..], conds, visited)
  }

  /** The errors that computeRoutes adds to the condition of the proxy it is called for. */
  ghost function OwnIssues(env: Env, root: Root, name: Name, conds: seq<MatchCondition>,
                           visited: seq<Name>): (issues: seq<Issue>)
    requires name in env.proxies
  {
    var p := env.proxies[name];
    if name in visited then [CYCLE]
    else if IncludesIdentical(p.includes) then [DUPLICATE_CONDITIONS]
    else IncludeIssues(env, p, p.includes) + RouteIssues(env, root, p.name.namespace, conds, p.routes)
  }

  ghost function OwnWarnings(env: Env, root: Root, name: Name, conds: seq<MatchCondition>,
                             visited: seq<Name>): (warnings: seq<Issue>)
    requires name in env.proxies
  {
    var p := env.proxies[name];
    if name in visited || IncludesIdentical(p.includes) then []
    else RouteWarnings(env, root, p.name.namespace, conds, p.routes)
  }

  // ----- the walk: proxies visited and status commits ------------------------------------------------

  /** The names that are taken off the list of orphans: those of the included objects, which
      are the names they are listed under unless their namespace is empty. */
  ghost function Visits(env: Env, name: Name, visited: seq<Name>): (ns: set<Name>)
    requires name in env.proxies
    decreases env.proxies.Keys - Seen(visited), 0, 0
  {
    if name in visited || IncludesIdentical(env.proxies[name].includes) then {}
    else
      SeenGrows(env.proxies.Keys, visited, name);
      VisitsIncludes(env, env.proxies[name], env.proxies[name].includes, visited + [name])
  }

  ghost function VisitsIncludes(env: Env, p: Proxy, incs: seq<Include>, visited: seq<Name>): (ns: set<Name>)
    decreases env.proxies.Keys - Seen(visited), 1, |incs|
  {
    if incs == [] then {}
    else
      (if OutcomeOf(env, p, incs[0]) == Follow
       then Visits(env, TargetOf(p, incs[0]), visited) + {env.proxies[TargetOf(p, incs[0])].name} else {})
      + VisitsIncludes(env, p, incs[1..], visited)
  }

  /** One status commit: a new Valid condition with these errors and warnings. */
  datatype Commit = Commit(name: Name, issues: seq<Issue>, warnings: seq<Issue>)

  /** The commits made below a proxy, in order; its own is made by its caller. */
  ghost function Commits(env: Env, root: Root, name: Name, conds: seq<MatchCondition>,
                         visited: seq<Name>): (cs: seq<Commit>)
    requires name in env.proxies
    decreases env.proxies.Keys - Seen(visited), 0, 0
  {
    if name in visited || IncludesIdentical(env.proxies[name].includes) then []
    else
      SeenGrows(env.proxies.Keys, visited, name);
      CommitsIncludes(env, root, env.proxies[name], env.proxies[name].includes, conds, visited + [name])
  }

  ghost function CommitsIncludes(env: Env, root: Root, p: Proxy, incs: seq<Include>, conds: seq<MatchCondition>,
                                 visited: seq<Name>): (cs: seq<Commit>)
    decreases env.proxies.Keys - Seen(visited), 1, |incs|
  {
    if incs == [] then []
    else
      (if OutcomeOf(env, p, incs[0]) != Follow then []
       else
         var target, below := TargetOf(p, incs[0]), conds + incs[0].conditions;
         Commits(env, root, target, below, visited)
         + [Commit(target, OwnIssues(env, root, target, below, visited),
                   OwnWarnings(env, root, target, below, visited))])
      + CommitsIncludes(env, root, p, incs[1..], conds, visited)
  }

  // ----- TCP proxies -----------------------------------------------------------------------------------

  const TCP_UNRESOLVED := Issue(TCPProxyError, ServiceUnresolvedReference)
  const TCP_CYCLE := Issue(TCPProxyIncludeError, IncludeCreatesCycle)

  /** The clusters of a TCP proxy up to the first service that fails, and that failure. */
  datatype TCPClusters = TCPClusters(clusters: seq<Cluster>, failure: Option<Issue>)

  function WithTCPService(env: Env, ns: string, ref: ServiceRef, acc: TCPClusters): (out: TCPClusters)
  {
    var u := UpstreamOf(env, ns, ref);
    if u.None? then acc.(failure := Some(TCP_UNRESOLVED))
    else
      var protocol := ProtocolOf(ref, u.value);
      if protocol.None? then acc.(failure := Some(UNSUPPORTED))
      else acc.(clusters := acc.clusters + [Cluster(u.value, protocol.value, ref.weight, ref.policy)])
  }

  function WithTCPServices(env: Env, ns: string, refs: seq<ServiceRef>, acc: TCPClusters): (out: TCPClusters)
  {
    if refs == [] || acc.failure.Some? then acc
    else WithTCPServices(env, ns, refs[1..], WithTCPService(env, ns, refs[0], acc))
  }

  /** What the TCP stanza of one proxy amounts to. */
  datatype TCPStep = TCPNothing | TCPFail(issue: Issue) | TCPServe(clusters: seq<Cluster>) | TCPFollow(target: Name)

  function TCPTarget(env: Env, p: Proxy, inc: TCPInclude): (s: TCPStep)
    ensures s.TCPFollow? ==> s.target in env.proxies && env.proxies[s.target].vhost.None?
  {
    var target := Qualified(p, inc.namespace, inc.name);
    if target !in env.proxies then TCPFail(Issue(TCPProxyIncludeError, IncludeNotFound))
    else if env.proxies[target].vhost.Some? then TCPFail(Issue(TCPProxyIncludeError, RootIncludesRoot))
    else TCPFollow(target)
  }

  function TCPStepOf(env: Env, p: Proxy): (s: TCPStep)
    ensures s.TCPFollow? ==> s.target in env.proxies && env.proxies[s.target].vhost.None?
  {
    if p.tcp.None? then TCPNothing
    else
      var t := p.tcp.value;
      var inc := TCPIncludeOf(t);
      if t.services != [] && inc.Some? then TCPFail(Issue(TCPProxyError, NoServicesAndInclude))
      else if t.services != [] then
        var cs := WithTCPServices(env, p.name.namespace, t.services, TCPClusters([], None));
        if cs.failure.Some? then TCPFail(cs.failure.value) else TCPServe(cs.clusters)
      else if inc.None? then TCPFail(Issue(TCPProxyError, NothingDefined))
      else TCPTarget(env, p, inc.value)
  }

  /** The warnings of a TCP stanza; they come after the first check. */
  function TCPWarnings(p: Proxy): (warnings: seq<Issue>)
  {
    if p.tcp.None? || (p.tcp.value.services != [] && TCPIncludeOf(p.tcp.value).Some?) then []
    else p.tcp.value.warnings
  }

  datatype TCPResult = TCPResult(ok: bool, clusters: Option<seq<Cluster>>)

  /** processHTTPProxyTCPProxy: along the chain of includes to a proxy with services. */
  ghost function TCPWalk(env: Env, name: Name, visited: seq<Name>): (r: TCPResult)
    requires name in env.proxies && name !in visited
    decreases env.proxies.Keys - Seen(visited)
  {
    match TCPStepOf(env, env.proxies[name])
    case TCPNothing => TCPResult(true, None)
    case TCPFail(_) => TCPResult(false, None)
    case TCPServe(cs) => TCPResult(true, Some(cs))
    case TCPFollow(target) =>
      SeenGrows(env.proxies.Keys, visited, name);
      if target in visited + [name] then TCPResult(false, None) else TCPWalk(env, target, visited + [name])
  }

  ghost function TCPIssues(env: Env, name: Name, visited: seq<Name>): (issues: seq<Issue>)
    requires name in env.proxies
  {
    match TCPStepOf(env, env.proxies[name])
    case TCPFail(issue) => [issue]
    case TCPFollow(target) => if target in visited + [name] then [TCP_CYCLE] else []
    case _ => []
  }

  ghost function TCPVisits(env: Env, name: Name, visited: seq<Name>): (ns: set<Name>)
    requires name in env.proxies && name !in visited
    decreases env.proxies.Keys - Seen(visited)
  {
    match TCPStepOf(env, env.proxies[name])
    case TCPFollow(target) =>
      SeenGrows(env.proxies.Keys, visited, name);
      {target} + if target in visited + [name] then {} else TCPVisits(env, target, visited + [name])
    case _ => {}
  }

  ghost function TCPCommits(env: Env, name: Name, visited: seq<Name>): (cs: seq<Commit>)
    requires name in env.proxies && name !in visited
    decreases env.proxies.Keys - Seen(visited)
  {
    match TCPStepOf(env, env.proxies[name])
    case TCPFollow(target) =>
      SeenGrows(env.proxies.Keys, visited, name);
      if target in visited + [name] then []
      else TCPCommits(env, target, visited + [name])
           + [Commit(target, TCPIssues(env, target, visited + [name]), TCPWarnings(env.proxies[target]))]
    case _ => []
  }
}
