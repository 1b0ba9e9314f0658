/** Which errors are reported, told from the fields of the objects alone: the checks of each kind in
    order, and the error of the first that fails (internal/dag/httpproxy_processor.go). */
module Errors {
  import opened Text
  import opened Dag
  import opened Kube
  import opened Conditions
  import opened Issues
  import opened Proxies
  import opened Compiler
  import opened Upstreams
  import opened Edges
  import opened Compiled
  import opened Builds
  import opened Hosts

  /** A check: whether it passes, and the error if it does not. */
  datatype Check = Check(passes: bool, error: Issue)

  /** The error is that of the first check that does not pass; there is none if all pass. */
  ghost predicate IsFirstFailure(checks: seq<Check>, e: Option<Issue>)
  {
    match e
    case None => forall k :: 0 <= k < |checks| ==> checks[k].passes
    case Some(error) => exists k: nat :: FailsAt(checks, k) && checks[k].error == error
  }

  ghost predicate FailsAt(checks: seq<Check>, k: nat)
  {
    k < |checks| && !checks[k].passes && forall j :: 0 <= j < k ==> checks[j].passes
  }

  function AsList(e: Option<Issue>): (issues: seq<Issue>)
  {
    if e.None? then [] else [e.value]
  }

  /** A check of other settings whose outcome is carried along. */
  function Carried(outcome: Option<Issue>): (c: Check)
  {
    Check(outcome.None?, if outcome.None? then Issue(OtherError(""), OtherReason("")) else outcome.value)
  }

  // ----- includes ---------------------------------------------------------------------------------------

  /** The checks of an include that calls m. */
  ghost function IncludeChecks(env: Env, inc: Include, m: Name): (checks: seq<Check>)
  {
    [Check(PathBlockOk(inc.conditions), Issue(IncludeError, PathMatchConditionsNotValid)),
     Check(NoRejection(HeadersOf(inc.conditions)), Issue(RouteError, HeaderMatchConditionsNotValid)),
     Check(m in env.proxies, Issue(IncludeError, IncludeNotFound)),
     Check(m in env.proxies ==> env.proxies[m].vhost.None?, Issue(IncludeError, RootIncludesRoot))]
  }

  /** Include i of the proxy is reported with this error, or with none. */
  ghost predicate IncludeReports(env: Env, p: Proxy, inc: Include, e: Option<Issue>)
  {
    forall m :: Calls(p, inc.namespace, inc.name, m) ==> IsFirstFailure(IncludeChecks(env, inc, m), e)
  }

  lemma OutcomeReports(env: Env, p: Proxy, inc: Include) returns (e: Option<Issue>)
    ensures IssueOf(OutcomeOf(env, p, inc)) == AsList(e) && IncludeReports(env, p, inc, e)
  {
    var issues := IssueOf(OutcomeOf(env, p, inc));
    e := if issues == [] then None else Some(issues[0]);
    forall m | Calls(p, inc.namespace, inc.name, m)
      ensures IsFirstFailure(IncludeChecks(env, inc, m), e)
    {
      OutcomesAre(env, p, inc, m);
      var checks := IncludeChecks(env, inc, m);
      match OutcomeOf(env, p, inc)
      case BadPath => assert FailsAt(checks, 0);
      case BadHeaders => assert FailsAt(checks, 1);
      case NotFound => assert FailsAt(checks, 2);
      case IsRoot => assert FailsAt(checks, 3);
      case Follow =>
    }
  }

  function Flattened(es: seq<Option<Issue>>): (issues: seq<Issue>)
  {
    if es == [] then [] else AsList(es[0]) + Flattened(es[1..])
  }

  ghost predicate IncludesReport(env: Env, p: Proxy, incs: seq<Include>, es: seq<Option<Issue>>)
  {
    |es| == |incs| && forall i :: 0 <= i < |incs| ==> IncludeReports(env, p, incs[i], es[i])
  }

  /** The errors of the includes of a proxy are those of each, in order. */
  lemma {:induction false} IncludeErrorsAre(env: Env, p: Proxy, incs: seq<Include>) returns (es: seq<Option<Issue>>)
    ensures IncludesReport(env, p, incs, es) && IncludeIssues(env, p, incs) == Flattened(es)
    decreases |incs|
  {
    if incs == [] {
      es := [];
    } else {
      var first := OutcomeReports(env, p, incs[0]);
      var rest := IncludeErrorsAre(env, p, incs[1..]);
      es := [first] + rest;
      assert es[1..] == rest;
      forall i | 0 <= i < |incs|
        ensures IncludeReports(env, p, incs[i], es[i])
      {
        assert i > 0 ==> incs[1..][i - 1] == incs[i] && rest[i - 1] == es[i];
      }
    }
  }

  // ----- services of a route ----------------------------------------------------------------------------

  ghost predicate Resolves(env: Env, ns: string, ref: ServiceRef, u: Upstream)
  {
    Name(ns, ref.name) in env.services
    && exists k: nat :: ResolvesAt(env.services[Name(ns, ref.name)], ref.port, k, env.externalNames, u)
  }

  ghost predicate SpeaksTLS(env: Env, ns: string, ref: ServiceRef)
  {
    exists c :: Gives(env, ns, ref, c) && (c.protocol == "tls" || c.protocol == "h2")
  }

  predicate ProtocolIsKnown(ref: ServiceRef)
  {
    ref.protocol.Some? ==> ref.protocol.value == "h2c" || ref.protocol.value == "h2" || ref.protocol.value == "tls"
  }

  /** The checks of a service of a route, after one that mirrors or not. */
  ghost function ServiceChecks(env: Env, ns: string, ref: ServiceRef, mirrored: bool): (checks: seq<Check>)
  {
    [Check(1 <= ref.port <= 65535, Issue(ServiceError, ServicePortInvalid)),
     Check(exists u :: Resolves(env, ns, ref, u), Issue(ServiceError, ServiceUnresolvedReference)),
     Check(ProtocolIsKnown(ref), Issue(ServiceError, UnsupportedProtocol)),
     if SpeaksTLS(env, ns, ref) then Carried(ref.tlsCheck) else Carried(None),
     Carried(ref.check),
     Check(!(ref.mirror && mirrored), Issue(ServiceError, OnlyOneMirror))]
  }

  /** A service that is not there is passed over; any other error stops the call. */
  ghost predicate Stops(env: Env, ns: string, ref: ServiceRef, e: Option<Issue>)
  {
    e.Some? && !(1 <= ref.port <= 65535 && forall u :: !Resolves(env, ns, ref, u))
  }

  lemma ResolvedIs(env: Env, ns: string, ref: ServiceRef)
    ensures forall u :: Resolves(env, ns, ref, u) <==> UpstreamOf(env, ns, ref) == Some(u)
  {
    forall u
      ensures Resolves(env, ns, ref, u) <==> UpstreamOf(env, ns, ref) == Some(u)
    {
      ResolvesExactly(env.services, Name(ns, ref.name), ref.port, env.externalNames, u);
    }
  }

  lemma SpeaksTLSWhen(env: Env, ns: string, ref: ServiceRef, u: Upstream)
    requires UpstreamOf(env, ns, ref) == Some(u) && ProtocolOf(ref, u).Some?
    ensures SpeaksTLS(env, ns, ref) <==> ProtocolOf(ref, u).value in {"tls", "h2"}
  {
    var cluster := Cluster(u, ProtocolOf(ref, u).value, ref.weight, ref.policy);
    GivesIs(env, ns, ref, cluster);
    forall c | Gives(env, ns, ref, c)
      ensures c == cluster
    {
      GivesIs(env, ns, ref, c);
    }
  }

  /** What one service adds to the errors. */
  lemma ServiceReports(env: Env, ns: string, ref: ServiceRef, acc: Clusters) returns (e: Option<Issue>)
    requires !acc.fatal
    ensures var out := WithService(env, ns, ref, acc);
            && IsFirstFailure(ServiceChecks(env, ns, ref, acc.mirror.Some?), e)
            && out.issues == acc.issues + AsList(e)
            && (out.fatal <==> Stops(env, ns, ref, e))
            && (!out.fatal ==> (out.mirror.Some? <==> acc.mirror.Some? || (ref.mirror && e.None?)))
  {
    var checks, u := ServiceChecks(env, ns, ref, acc.mirror.Some?), UpstreamOf(env, ns, ref);
    ResolvedIs(env, ns, ref);
    if !(1 <= ref.port <= 65535) {
      e := Some(PORT_INVALID);
      assert FailsAt(checks, 0);
    } else if u.None? {
      e := Some(UNRESOLVED);
      assert FailsAt(checks, 1);
    } else {
      assert Resolves(env, ns, ref, u.value);
      e := ResolvedReports(env, ns, ref, acc, u.value);
    }
  }

  /** The first failure among the checks after the service was found. */
  function LaterFailure(ref: ServiceRef, tls: bool, mirrored: bool): (e: Option<Issue>)
  {
    if !ProtocolIsKnown(ref) then Some(UNSUPPORTED)
    else if tls && ref.tlsCheck.Some? then ref.tlsCheck
    else if ref.check.Some? then ref.check
    else if ref.mirror && mirrored then Some(ONE_MIRROR)
    else None
  }

  lemma LaterFailureIsFirst(env: Env, ns: string, ref: ServiceRef, mirrored: bool, u: Upstream)
    requires 1 <= ref.port <= 65535 && Resolves(env, ns, ref, u)
    ensures IsFirstFailure(ServiceChecks(env, ns, ref, mirrored), LaterFailure(ref, SpeaksTLS(env, ns, ref), mirrored))
  {
    var checks := ServiceChecks(env, ns, ref, mirrored);
    if !ProtocolIsKnown(ref) {
      assert FailsAt(checks, 2);
    } else if SpeaksTLS(env, ns, ref) && ref.tlsCheck.Some? {
      assert FailsAt(checks, 3);
    } else if ref.check.Some? {
      assert FailsAt(checks, 4);
    } else if ref.mirror && mirrored {
      assert FailsAt(checks, 5);
    }
  }

  lemma ResolvedReports(env: Env, ns: string, ref: ServiceRef, acc: Clusters, u: Upstream) returns (e: Option<Issue>)
    requires !acc.fatal && 1 <= ref.port <= 65535 && UpstreamOf(env, ns, ref) == Some(u) && Resolves(env, ns, ref, u)
    ensures var out := WithService(env, ns, ref, acc);
            && IsFirstFailure(ServiceChecks(env, ns, ref, acc.mirror.Some?), e)
            && out.issues == acc.issues + AsList(e)
            && (out.fatal <==> e.Some?)
            && (!out.fatal ==> (out.mirror.Some? <==> acc.mirror.Some? || ref.mirror))
  {
    e := LaterFailure(ref, SpeaksTLS(env, ns, ref), acc.mirror.Some?);
    LaterFailureIsFirst(env, ns, ref, acc.mirror.Some?, u);
    if ProtocolIsKnown(ref) {
      SpeaksTLSWhen(env, ns, ref, u);
    }
  }

  /** A service before position i is there and mirrors. */
  ghost predicate MirroredBefore(refs: seq<ServiceRef>, es: seq<Option<Issue>>, i: nat)
  {
    exists j :: 0 <= j < i && j < |refs| && j < |es| && refs[j].mirror && es[j].None?
  }

  /** The error at position i is that of service i, and it is the last one exactly if it stops. */
  ghost predicate ReportsAt(env: Env, ns: string, refs: seq<ServiceRef>, mirrored: bool, es: seq<Option<Issue>>,
                            stopped: bool, i: nat)
    requires i < |es| <= |refs|
  {
    && IsFirstFailure(ServiceChecks(env, ns, refs[i], mirrored || MirroredBefore(refs, es, i)), es[i])
    && (Stops(env, ns, refs[i], es[i]) <==> stopped && i == |es| - 1)
  }

  /** These are the errors of the services of a route, up to one that stops the call, if the route
      has a mirror already or not. */
  ghost predicate ServicesReport(env: Env, ns: string, refs: seq<ServiceRef>, mirrored: bool,
                                 es: seq<Option<Issue>>, stopped: bool)
  {
    && |es| <= |refs| && (stopped ==> es != []) && (!stopped ==> |es| == |refs|)
    && forall i: nat :: i < |es| ==> ReportsAt(env, ns, refs, mirrored, es, stopped, i)
  }

  lemma ServicesReportCons(env: Env, ns: string, refs: seq<ServiceRef>, mirrored: bool, e: Option<Issue>,
                           rest: seq<Option<Issue>>, stopped: bool)
    requires refs != [] && IsFirstFailure(ServiceChecks(env, ns, refs[0], mirrored), e) && !Stops(env, ns, refs[0], e)
    requires ServicesReport(env, ns, refs[1..], mirrored || (refs[0].mirror && e.None?), rest, stopped)
    ensures ServicesReport(env, ns, refs, mirrored, [e] + rest, stopped)
  {
    var es := [e] + rest;
    forall i: nat | i < |es|
      ensures ReportsAt(env, ns, refs, mirrored, es, stopped, i)
    {
      if i == 0 {
        assert !MirroredBefore(refs, es, 0);
      } else {
        ReportsShift(env, ns, refs, mirrored, e, rest, stopped, i);
      }
    }
  }

  lemma ReportsShift(env: Env, ns: string, refs: seq<ServiceRef>, mirrored: bool, e: Option<Issue>,
                     rest: seq<Option<Issue>>, stopped: bool, i: nat)
    requires refs != [] && 0 < i <= |rest| < |refs|
    requires ReportsAt(env, ns, refs[1..], mirrored || (refs[0].mirror && e.None?), rest, stopped, i - 1)
    ensures ReportsAt(env, ns, refs, mirrored, [e] + rest, stopped, i)
  {
    MirroredShift(refs, e, rest, i);
    assert refs[1..][i - 1] == refs[i] && ([e] + rest)[i] == rest[i - 1];
  }

  lemma MirroredShift(refs: seq<ServiceRef>, e: Option<Issue>, rest: seq<Option<Issue>>, i: nat)
    requires refs != [] && 0 < i <= |rest| < |refs|
    ensures MirroredBefore(refs, [e] + rest, i) <==>
            (refs[0].mirror && e.None?) || MirroredBefore(refs[1..], rest, i - 1)
  {
    var es, more := [e] + rest, refs[1..];
    if j :| 0 <= j < i - 1 && j < |more| && j < |rest| && more[j].mirror && rest[j].None? {
      assert refs[j + 1].mirror && es[j + 1].None?;
    }
    if j :| 0 <= j < i && j < |refs| && j < |es| && refs[j].mirror && es[j].None? {
      assert j > 0 ==> more[j - 1].mirror && rest[j - 1].None?;
      assert j == 0 ==> es[0] == e;
    }
    assert es[0] == e;
  }

  /** The services of a route report the error of each, in order, up to the first that stops. */
  lemma {:induction false} ServiceErrorsAre(env: Env, ns: string, refs: seq<ServiceRef>, acc: Clusters)
    returns (es: seq<Option<Issue>>)
    requires !acc.fatal
    ensures var out := WithServices(env, ns, refs, acc);
            && ServicesReport(env, ns, refs, acc.mirror.Some?, es, out.fatal)
            && out.issues == acc.issues + Flattened(es)
    decreases |refs|
  {
    if refs == [] {
      es := [];
    } else {
      var next := WithService(env, ns, refs[0], acc);
      var e := ServiceReports(env, ns, refs[0], acc);
      if next.fatal {
        es := [e];
        assert es[1..] == [] && AsList(e) + [] == AsList(e);
        assert !MirroredBefore(refs, es, 0);
      } else {
        var rest := ServiceErrorsAre(env, ns, refs[1..], next);
        es := [e] + rest;
        assert es[1..] == rest;
        ServicesReportCons(env, ns, refs, acc.mirror.Some?, e, rest, WithServices(env, ns, refs[1..], next).fatal);
        Regroup(acc.issues, AsList(e), Flattened(rest));
      }
    }
  }

  // ----- one route -----------------------------------------------------------------------------------------

  /** Position k is the first whose prefix occurs before it. */
  ghost predicate RepeatsAt(rs: seq<Replacement>, k: nat)
  {
    && k < |rs| && (exists i :: 0 <= i < k && rs[i].prefix == rs[k].prefix)
    && forall i, j :: 0 <= i < j < k ==> rs[i].prefix != rs[j].prefix
  }

  ghost predicate NameRepeats(rs: seq<Replacement>)
  {
    exists k: nat :: RepeatsAt(rs, k) && rs[k].prefix != ""
  }

  ghost predicate DefaultRepeats(rs: seq<Replacement>)
  {
    exists k: nat :: RepeatsAt(rs, k) && rs[k].prefix == ""
  }

  /** The checks of a route below a chain of conditions, before its services. */
  ghost function RouteChecks(conds: seq<MatchCondition>, r: RouteSpec): (checks: seq<Check>)
  {
    InOrder(PathBlockOk(r.conditions), NoRejection(HeadersOf(conds + r.conditions)), r.headersCheck,
            r.services != [] || r.redirect.Some?, r.policyCheck,
            NameRepeats(r.replacements), DefaultRepeats(r.replacements))
  }

  /** Their errors, given which of them pass. */
  function InOrder(path: bool, headers: bool, headersCheck: Option<Issue>, targets: bool, policyCheck: Option<Issue>,
                   nameRepeats: bool, defaultRepeats: bool): (checks: seq<Check>)
  {
    [Check(path, Issue(RouteError, PathMatchConditionsNotValid)),
     Check(headers, Issue(RouteError, HeaderMatchConditionsNotValid)),
     Carried(headersCheck),
     Check(targets, Issue(RouteError, NoServicesPresent)),
     Carried(policyCheck),
     Check(!nameRepeats, Issue(PrefixReplaceError, DuplicateReplacement)),
     Check(!defaultRepeats, Issue(PrefixReplaceError, AmbiguousReplacement))]
  }

  lemma FirstDuplicateRepeats(rs: seq<Replacement>)
    requires !ReplacementsOk(rs)
    ensures RepeatsAt(rs, FirstDuplicate(rs, |rs|))
  {
    assert rs[..|rs|] == rs;
    var d := FirstDuplicate(rs, |rs|);
    var before, upTo := rs[..d], rs[..d + 1];
    assert forall i :: 0 <= i < d ==> before[i] == rs[i];
    assert forall i :: 0 <= i <= d ==> upTo[i] == rs[i];
    var i, j :| 0 <= i < j < |upTo| && upTo[i].prefix == upTo[j].prefix;
    assert j == d;
  }

  lemma RepeatsOnce(rs: seq<Replacement>, k: nat, l: nat)
    requires RepeatsAt(rs, k) && RepeatsAt(rs, l)
    ensures k == l
  {
    var i :| 0 <= i < k && rs[i].prefix == rs[k].prefix;
    var j :| 0 <= j < l && rs[j].prefix == rs[l].prefix;
  }

  ghost function ReplacementFailure(rs: seq<Replacement>): (e: Option<Issue>)
  {
    if ReplacementsOk(rs) then None else Some(ReplacementIssue(rs))
  }

  lemma ReplacementFails(rs: seq<Replacement>)
    ensures ReplacementFailure(rs) == Replacing(NameRepeats(rs), DefaultRepeats(rs))
  {
    if !ReplacementsOk(rs) {
      var d := FirstDuplicate(rs, |rs|);
      FirstDuplicateRepeats(rs);
      forall k: nat | RepeatsAt(rs, k)
        ensures k == d
      {
        RepeatsOnce(rs, k, d);
      }
    }
  }

  /** The first of them that does not pass. */
  function FirstInOrder(path: bool, headers: bool, headersCheck: Option<Issue>, targets: bool,
                        policyCheck: Option<Issue>, replacement: Option<Issue>): (e: Option<Issue>)
  {
    if !path then Some(Issue(RouteError, PathMatchConditionsNotValid))
    else if !headers then Some(Issue(RouteError, HeaderMatchConditionsNotValid))
    else if headersCheck.Some? then headersCheck
    else if !targets then Some(Issue(RouteError, NoServicesPresent))
    else if policyCheck.Some? then policyCheck
    else replacement
  }

  lemma FirstInOrderIsFirst(path: bool, headers: bool, headersCheck: Option<Issue>, targets: bool,
                            policyCheck: Option<Issue>, nameRepeats: bool, defaultRepeats: bool)
    ensures IsFirstFailure(InOrder(path, headers, headersCheck, targets, policyCheck, nameRepeats, defaultRepeats),
                           FirstInOrder(path, headers, headersCheck, targets, policyCheck,
                                        Replacing(nameRepeats, defaultRepeats)))
  {
    var checks := InOrder(path, headers, headersCheck, targets, policyCheck, nameRepeats, defaultRepeats);
    if !path {
      assert FailsAt(checks, 0);
    } else if !headers {
      assert FailsAt(checks, 1);
    } else if headersCheck.Some? {
      assert FailsAt(checks, 2);
    } else if !targets {
      assert FailsAt(checks, 3);
    } else if policyCheck.Some? {
      assert FailsAt(checks, 4);
    } else if nameRepeats {
      assert FailsAt(checks, 5);
    } else if defaultRepeats {
      assert FailsAt(checks, 6);
    }
  }

  function Replacing(nameRepeats: bool, defaultRepeats: bool): (e: Option<Issue>)
  {
    if nameRepeats then Some(Issue(PrefixReplaceError, DuplicateReplacement))
    else if defaultRepeats then Some(Issue(PrefixReplaceError, AmbiguousReplacement))
    else None
  }

  /** The error of a route before its services are looked at. */
  ghost function BeforeServices(conds: seq<MatchCondition>, r: RouteSpec): (e: Option<Issue>)
  {
    var early := EarlyIssue(conds, r);
    if early.Some? then early else ReplacementFailure(r.replacements)
  }

  lemma BeforeServicesIsFirst(conds: seq<MatchCondition>, r: RouteSpec)
    ensures IsFirstFailure(RouteChecks(conds, r), BeforeServices(conds, r))
  {
    ReplacementFails(r.replacements);
    FirstInOrderIsFirst(PathBlockOk(r.conditions), NoRejection(HeadersOf(conds + r.conditions)), r.headersCheck,
                        r.services != [] || r.redirect.Some?, r.policyCheck,
                        NameRepeats(r.replacements), DefaultRepeats(r.replacements));
  }

  /** These are the errors of a route, and whether it is built: that of the first check that fails,
      or else those of its services. */
  ghost predicate RouteReports(env: Env, ns: string, conds: seq<MatchCondition>, r: RouteSpec, issues: seq<Issue>,
                               built: bool)
  {
    || (exists e :: IsFirstFailure(RouteChecks(conds, r), Some(e)) && issues == [e] && !built)
    || (&& IsFirstFailure(RouteChecks(conds, r), None)
        && exists es :: ServicesReport(env, ns, r.services, false, es, !built) && issues == Flattened(es))
  }

  lemma RouteErrorsAre(env: Env, root: Root, ns: string, conds: seq<MatchCondition>, r: RouteSpec)
    ensures var b := BuildRoute(env, root, ns, conds, r);
            RouteReports(env, ns, conds, r, b.issues, b.route.Some?)
  {
    BeforeServicesIsFirst(conds, r);
    if BeforeServices(conds, r).None? {
      var es := ServiceErrorsAre(env, ns, r.services, NO_CLUSTERS);
      assert [] + Flattened(es) == Flattened(es);
    }
  }

  // ----- a whole call -----------------------------------------------------------------------------------------

  function Joined(lists: seq<seq<Issue>>): (issues: seq<Issue>)
  {
    if lists == [] then [] else lists[0] + Joined(lists[1..])
  }

  /** These are the errors of the routes of a proxy, route by route, up to the first that is not
      built; then the proxy gives no routes at all. */
  ghost predicate RoutesReport(env: Env, ns: string, conds: seq<MatchCondition>, rs: seq<RouteSpec>,
                               lists: seq<seq<Issue>>, built: bool)
  {
    && |lists| <= |rs| && (!built ==> lists != []) && (built ==> |lists| == |rs|)
    && forall i :: 0 <= i < |lists| ==> RouteReports(env, ns, conds, rs[i], lists[i], built || i < |lists| - 1)
  }

  lemma RoutesReportCons(env: Env, ns: string, conds: seq<MatchCondition>, rs: seq<RouteSpec>, first: seq<Issue>,
                         rest: seq<seq<Issue>>, built: bool)
    requires rs != [] && RouteReports(env, ns, conds, rs[0], first, true)
    requires RoutesReport(env, ns, conds, rs[1..], rest, built)
    ensures RoutesReport(env, ns, conds, rs, [first] + rest, built)
  {
    var lists := [first] + rest;
    forall i | 0 <= i < |lists|
      ensures RouteReports(env, ns, conds, rs[i], lists[i], built || i < |lists| - 1)
    {
      if i > 0 {
        assert rs[1..][i - 1] == rs[i] && rest[i - 1] == lists[i];
      }
    }
  }

  lemma {:induction false} RoutesErrorsAre(env: Env, root: Root, ns: string, conds: seq<MatchCondition>,
                                           rs: seq<RouteSpec>)
    returns (lists: seq<seq<Issue>>)
    ensures RoutesReport(env, ns, conds, rs, lists, OwnRoutes(env, root, ns, conds, rs).Some?)
    ensures RouteIssues(env, root, ns, conds, rs) == Joined(lists)
    decreases |rs|
  {
    if rs == [] {
      lists := [];
    } else {
      var b := BuildRoute(env, root, ns, conds, rs[0]);
      RouteErrorsAre(env, root, ns, conds, rs[0]);
      if b.route.None? {
        lists := [b.issues];
        assert lists[1..] == [] && b.issues + [] == b.issues;
      } else {
        var rest := RoutesErrorsAre(env, root, ns, conds, rs[1..]);
        lists := [b.issues] + rest;
        assert lists[1..] == rest;
        RoutesReportCons(env, ns, conds, rs, b.issues, rest, OwnRoutes(env, root, ns, conds, rs[1..]).Some?);
      }
    }
  }

  /** These are the errors that a call reports on the proxy it is for: that it is on the path already,
      that neighbouring includes have a condition in common, or else those of its includes and
      then those of its routes. */
  ghost predicate CallReports(env: Env, name: Name, conds: seq<MatchCondition>, visited: seq<Name>, issues: seq<Issue>)
    requires name in env.proxies
  {
    var p := env.proxies[name];
    if name in visited then issues == [Issue(IncludeError, IncludeCreatesCycle)]
    else if NeighboursMeet(p) then issues == [Issue(IncludeError, DuplicateMatchConditions)]
    else exists es, lists, built :: IncludesReport(env, p, p.includes, es)
                                    && RoutesReport(env, p.name.namespace, conds, p.routes, lists, built)
                                    && issues == Flattened(es) + Joined(lists)
  }

  lemma CallErrorsAre(env: Env, root: Root, name: Name, conds: seq<MatchCondition>, visited: seq<Name>)
    requires name in env.proxies
    ensures CallReports(env, name, conds, visited, OwnIssues(env, root, name, conds, visited))
  {
    var p := env.proxies[name];
    NeighboursMeetIs(p);
    if name !in visited && !NeighboursMeet(p) {
      var es := IncludeErrorsAre(env, p, p.includes);
      var lists := RoutesErrorsAre(env, root, p.name.namespace, conds, p.routes);
    }
  }

  /** A route passes the checks that are made before it is put together. */
  ghost predicate IsPutTogether(conds: seq<MatchCondition>, r: RouteSpec)
  {
    && PathBlockOk(r.conditions) && NoRejection(HeadersOf(conds + r.conditions))
    && r.headersCheck.None? && r.policyCheck.None?
    && (r.services != [] || r.redirect.Some?)
  }

  /** Such a route gives its warnings, built or not; another gives none. */
  lemma RouteWarningsAre(env: Env, root: Root, ns: string, conds: seq<MatchCondition>, r: RouteSpec)
    ensures BuildRoute(env, root, ns, conds, r).warnings == if IsPutTogether(conds, r) then r.warnings else []
  {
    EarlyPassesWhen(conds, r);
  }

  /** How many routes of a proxy are looked at: all of them, or those up to the first that is not built. */
  ghost predicate IsLookedAt(env: Env, root: Root, ns: string, conds: seq<MatchCondition>, rs: seq<RouteSpec>, n: nat)
  {
    && n <= |rs|
    && (forall i :: 0 <= i < n - 1 ==> BuildRoute(env, root, ns, conds, rs[i]).route.Some?)
    && (n < |rs| ==> n > 0 && BuildRoute(env, root, ns, conds, rs[n - 1]).route.None?)
  }

  ghost function WarningsOf(conds: seq<MatchCondition>, rs: seq<RouteSpec>): (warnings: seq<Issue>)
  {
    if rs == [] then [] else (if IsPutTogether(conds, rs[0]) then rs[0].warnings else []) + WarningsOf(conds, rs[1..])
  }

  /** The warnings of the routes of a proxy are those of the routes looked at, in order. */
  lemma {:induction false} RoutesWarningsAre(env: Env, root: Root, ns: string, conds: seq<MatchCondition>,
                                             rs: seq<RouteSpec>)
    returns (n: nat)
    ensures IsLookedAt(env, root, ns, conds, rs, n)
    ensures RouteWarnings(env, root, ns, conds, rs) == WarningsOf(conds, rs[..n])
    decreases |rs|
  {
    if rs == [] {
      n := 0;
    } else {
      RouteWarningsAre(env, root, ns, conds, rs[0]);
      if BuildRoute(env, root, ns, conds, rs[0]).route.None? {
        n := 1;
        assert rs[..1][1..] == [];
      } else {
        var m := RoutesWarningsAre(env, root, ns, conds, rs[1..]);
        n := m + 1;
        assert rs[..n][1..] == rs[1..][..m];
        LookedAtCons(env, root, ns, conds, rs, m);
      }
    }
  }

  lemma LookedAtCons(env: Env, root: Root, ns: string, conds: seq<MatchCondition>, rs: seq<RouteSpec>, m: nat)
    requires rs != [] && BuildRoute(env, root, ns, conds, rs[0]).route.Some?
    requires IsLookedAt(env, root, ns, conds, rs[1..], m)
    ensures IsLookedAt(env, root, ns, conds, rs, m + 1)
  {
    var rest := rs[1..];
    assert forall i :: 1 <= i < |rs| ==> rs[i] == rest[i - 1];
  }

  // ----- TCP stanzas ----------------------------------------------------------------------------------------------

  /** The checks of one service of a TCP stanza. */
  ghost function TCPServiceChecks(env: Env, ns: string, ref: ServiceRef): (checks: seq<Check>)
  {
    [Check(exists u :: Resolves(env, ns, ref, u), Issue(TCPProxyError, ServiceUnresolvedReference)),
     Check(ProtocolIsKnown(ref), Issue(ServiceError, UnsupportedProtocol))]
  }

  /** The error is that of the first service that has one. */
  ghost predicate TCPServicesReport(env: Env, ns: string, refs: seq<ServiceRef>, e: Option<Issue>)
  {
    match e
    case None => forall i :: 0 <= i < |refs| ==> IsFirstFailure(TCPServiceChecks(env, ns, refs[i]), None)
    case Some(_) => exists i: nat :: FirstToFail(env, ns, refs, e, i)
  }

  ghost predicate FirstToFail(env: Env, ns: string, refs: seq<ServiceRef>, e: Option<Issue>, i: nat)
  {
    && i < |refs| && IsFirstFailure(TCPServiceChecks(env, ns, refs[i]), e)
    && forall j :: 0 <= j < i ==> IsFirstFailure(TCPServiceChecks(env, ns, refs[j]), None)
  }

  lemma TCPServiceReports(env: Env, ns: string, ref: ServiceRef, acc: TCPClusters)
    requires acc.failure.None?
    ensures IsFirstFailure(TCPServiceChecks(env, ns, ref), WithTCPService(env, ns, ref, acc).failure)
  {
    var checks, u := TCPServiceChecks(env, ns, ref), UpstreamOf(env, ns, ref);
    ResolvedIs(env, ns, ref);
    if u.None? {
      assert FailsAt(checks, 0);
    } else {
      assert Resolves(env, ns, ref, u.value);
      if !ProtocolIsKnown(ref) {
        assert FailsAt(checks, 1);
      }
    }
  }

  lemma {:induction false} TCPServiceErrorsAre(env: Env, ns: string, refs: seq<ServiceRef>, acc: TCPClusters)
    requires acc.failure.None?
    ensures TCPServicesReport(env, ns, refs, WithTCPServices(env, ns, refs, acc).failure)
    decreases |refs|
  {
    if refs != [] {
      var next, rest := WithTCPService(env, ns, refs[0], acc), refs[1..];
      TCPServiceReports(env, ns, refs[0], acc);
      if next.failure.None? {
        TCPServiceErrorsAre(env, ns, rest, next);
        TCPServicesReportCons(env, ns, refs, WithTCPServices(env, ns, rest, next).failure);
      } else {
        assert WithTCPServices(env, ns, rest, next) == next;
        assert FirstToFail(env, ns, refs, next.failure, 0);
      }
    }
  }

  lemma TCPServicesReportCons(env: Env, ns: string, refs: seq<ServiceRef>, e: Option<Issue>)
    requires refs != [] && IsFirstFailure(TCPServiceChecks(env, ns, refs[0]), None)
    requires TCPServicesReport(env, ns, refs[1..], e)
    ensures TCPServicesReport(env, ns, refs, e)
  {
    var rest := refs[1..];
    assert forall i :: 1 <= i < |refs| ==> refs[i] == rest[i - 1];
    if e.Some? {
      var i: nat :| FirstToFail(env, ns, rest, e, i);
      assert FirstToFail(env, ns, refs, e, i + 1);
    }
  }

  ghost predicate HasTCPInclude(t: TCPProxy)
  {
    t.incl.Some? || t.inclDeprecated.Some?
  }

  /** The include that counts calls m: the singular field, or the plural one if that is not set. */
  ghost predicate TCPCalls(p: Proxy, t: TCPProxy, m: Name)
  {
    if t.incl.Some? then Calls(p, t.incl.value.namespace, t.incl.value.name, m)
    else t.inclDeprecated.Some? && Calls(p, t.inclDeprecated.value.namespace, t.inclDeprecated.value.name, m)
  }

  /** The checks of a stanza whose include calls m, below the proxies of a path. */
  ghost function TCPIncludeChecks(env: Env, m: Name, path: seq<Name>): (checks: seq<Check>)
  {
    [Check(m in env.proxies, Issue(TCPProxyIncludeError, IncludeNotFound)),
     Check(m in env.proxies ==> env.proxies[m].vhost.None?, Issue(TCPProxyIncludeError, RootIncludesRoot)),
     Check(m !in path, Issue(TCPProxyIncludeError, IncludeCreatesCycle))]
  }

  /** This is the error of the TCP stanza of a proxy, if it has one: services and an include, neither
      of them, or else that of its services or of its include. */
  ghost predicate TCPReports(env: Env, name: Name, visited: seq<Name>, e: Option<Issue>)
    requires name in env.proxies
  {
    var p := env.proxies[name];
    if p.tcp.None? then e == None
    else if p.tcp.value.services != [] && HasTCPInclude(p.tcp.value)
    then e == Some(Issue(TCPProxyError, NoServicesAndInclude))
    else if p.tcp.value.services != [] then TCPServicesReport(env, p.name.namespace, p.tcp.value.services, e)
    else if !HasTCPInclude(p.tcp.value) then e == Some(Issue(TCPProxyError, NothingDefined))
    else forall m :: TCPCalls(p, p.tcp.value, m) ==> IsFirstFailure(TCPIncludeChecks(env, m, visited + [name]), e)
  }

  lemma TCPErrorsAre(env: Env, name: Name, visited: seq<Name>) returns (e: Option<Issue>)
    requires name in env.proxies
    ensures TCPIssues(env, name, visited) == AsList(e) && TCPReports(env, name, visited, e)
  {
    var p, issues := env.proxies[name], TCPIssues(env, name, visited);
    e := if issues == [] then None else Some(issues[0]);
    if p.tcp.Some? && p.tcp.value.services != [] && !HasTCPInclude(p.tcp.value) {
      TCPServiceErrorsAre(env, p.name.namespace, p.tcp.value.services, TCPClusters([], None));
    } else if p.tcp.Some? && p.tcp.value.services == [] && HasTCPInclude(p.tcp.value) {
      forall m | TCPCalls(p, p.tcp.value, m)
        ensures IsFirstFailure(TCPIncludeChecks(env, m, visited + [name]), e)
      {
        TCPIncludeReports(env, name, visited, m, e);
      }
    }
  }

  lemma TCPIncludeReports(env: Env, name: Name, visited: seq<Name>, m: Name, e: Option<Issue>)
    requires name in env.proxies && env.proxies[name].tcp.Some? && env.proxies[name].tcp.value.services == []
    requires TCPCalls(env.proxies[name], env.proxies[name].tcp.value, m)
    requires TCPIssues(env, name, visited) == AsList(e)
    ensures IsFirstFailure(TCPIncludeChecks(env, m, visited + [name]), e)
  {
    var p := env.proxies[name];
    var inc := TCPIncludeOf(p.tcp.value).value;
    CallsOne(p, inc.namespace, inc.name, m);
    var checks := TCPIncludeChecks(env, m, visited + [name]);
    if m !in env.proxies {
      assert FailsAt(checks, 0);
    } else if env.proxies[m].vhost.Some? {
      assert FailsAt(checks, 1);
    } else if m in visited + [name] {
      assert FailsAt(checks, 2);
    }
  }

  /** The warnings of a TCP stanza come after the check that it does not have services and an include. */
  ghost function StanzaWarnings(p: Proxy): (warnings: seq<Issue>)
  {
    if p.tcp.Some? && !(p.tcp.value.services != [] && HasTCPInclude(p.tcp.value)) then p.tcp.value.warnings else []
  }

  lemma StanzaWarningsAre(p: Proxy)
    ensures TCPWarnings(p) == StanzaWarnings(p)
  {
  }

  // ----- roots -------------------------------------------------------------------------------------------------------

  /** The checks of a root before anything else. */
  ghost function GateChecks(env: Env, p: Proxy): (checks: seq<Check>)
    requires p.vhost.Some?
  {
    var fqdn := p.vhost.value.fqdn;
    [Check(exists i :: 0 <= i < |fqdn| && !IsSpace(fqdn[i]), Issue(VirtualHostError, FQDNNotSpecified)),
     Check(env.rootNamespaces == [] || p.name.namespace in env.rootNamespaces,
           Issue(RootNamespaceError, RootProxyNotAllowedInNamespace)),
     Check(p.routes != [] || p.includes != [] || p.tcp.Some?, Issue(SpecError, NothingDefined))]
  }

  lemma GateErrorsAre(env: Env, p: Proxy)
    requires p.vhost.Some?
    ensures IsFirstFailure(GateChecks(env, p), GateIssue(env, p))
  {
    var checks := GateChecks(env, p);
    TrimSpaceIsEmptyWhen(p.vhost.value.fqdn);
    if IsBlank(p.vhost.value.fqdn) {
      assert FailsAt(checks, 0);
    } else if !RootAllowed(env, p.name.namespace) {
      assert FailsAt(checks, 1);
    } else if p.routes == [] && p.includes == [] && p.tcp.None? {
      assert FailsAt(checks, 2);
    }
  }

  /** These are the errors of a root: that of the first check that it fails, or what comes after. */
  ghost predicate RootReports(env: Env, n: Name, issues: seq<Issue>)
    requires HasHost(env, n)
  {
    || (exists e :: IsFirstFailure(GateChecks(env, env.proxies[n]), Some(e)) && issues == [e])
    || (IsFirstFailure(GateChecks(env, env.proxies[n]), None) && AfterGateReports(env, n, issues))
  }

  /** The errors of its TLS settings; and if none of these is fatal, that a TCP stanza lacks TLS, or
      the error of the stanza; and if that does not keep it from its routes, the errors of the call
      for these and of the checks made after it. */
  ghost predicate AfterGateReports(env: Env, n: Name, issues: seq<Issue>)
    requires HasHost(env, n)
  {
    var p, vh := env.proxies[n], env.proxies[n].vhost.value;
    var soft := if vh.tls.Some? then vh.tls.value.soft else [];
    if vh.tls.Some? && vh.tls.value.fatal.Some? then issues == soft + [vh.tls.value.fatal.value]
    else if p.tcp.Some? && vh.tls.None? then issues == soft + [Issue(TCPProxyError, TLSMustBeConfigured)]
    else exists e, own :: && TCPReports(env, n, [], e) && CallReports(env, n, [], [], own)
                          && issues == soft + AsList(e)
                                       + if PassesTCP(env, n) then own + AsList(vh.laterCheck) else []
  }

  lemma RootErrorsAre(env: Env, n: Name)
    requires HasHost(env, n)
    ensures RootReports(env, n, Process(env, n).issues)
  {
    GateErrorsAre(env, env.proxies[n]);
    if GateIssue(env, env.proxies[n]).None? {
      AfterGate(env, n);
    }
  }

  lemma AfterGate(env: Env, n: Name)
    requires HasHost(env, n) && GateIssue(env, env.proxies[n]).None?
    ensures AfterGateReports(env, n, Process(env, n).issues)
  {
    var p, vh := env.proxies[n], env.proxies[n].vhost.value;
    if !(vh.tls.Some? && vh.tls.value.fatal.Some?) && !(p.tcp.Some? && vh.tls.None?) {
      var e := TCPErrorsAre(env, n, []);
      CallErrorsAre(env, RootOf(p), n, [], []);
      WalkedReports(env, n, e, if vh.tls.Some? then vh.tls.value.soft else []);
    }
  }

  lemma WalkedReports(env: Env, n: Name, e: Option<Issue>, soft: seq<Issue>)
    requires HasHost(env, n) && !(env.proxies[n].tcp.Some? && env.proxies[n].vhost.value.tls.None?)
    requires TCPIssues(env, n, []) == AsList(e)
    ensures var p := env.proxies[n];
            var own := OwnIssues(env, RootOf(p), n, [], []);
            Walked(env, n, soft).issues ==
            soft + AsList(e) + if PassesTCP(env, n) then own + AsList(p.vhost.value.laterCheck) else []
  {
    var p := env.proxies[n];
    var own := OwnIssues(env, RootOf(p), n, [], []);
    var later := p.vhost.value.laterCheck;
    if p.tcp.Some? {
      PassesTCPWhen(env, n);
    }
    Regroup(soft + AsList(e), own, AsList(later));
    assert soft + AsList(e) + [] == soft + AsList(e);
    assert soft + AsList(e) + own + [] == soft + AsList(e) + own;
  }

  lemma WalkedWarnings(env: Env, n: Name, soft: seq<Issue>)
    requires HasHost(env, n) && (env.proxies[n].tcp.Some? ==> env.proxies[n].vhost.value.tls.Some?)
    ensures var p := env.proxies[n];
            Walked(env, n, soft).warnings ==
            TCPWarnings(p) + if PassesTCP(env, n) then OwnWarnings(env, RootOf(p), n, [], []) else []
  {
    if env.proxies[n].tcp.Some? {
      PassesTCPWhen(env, n);
    }
    assert TCPWarnings(env.proxies[n]) + [] == TCPWarnings(env.proxies[n]);
  }

  /** A root that gets past its first checks and TLS gives the warnings of its TCP stanza, and, if that
      does not keep it from its routes, those of the call for these. */
  lemma RootWarningsAre(env: Env, n: Name)
    requires HasHost(env, n)
    ensures var p := env.proxies[n];
            Process(env, n).warnings ==
            if Enters(env, n) && (p.tcp.Some? ==> p.vhost.value.tls.Some?)
            then StanzaWarnings(p) + if PassesTCP(env, n) then OwnWarnings(env, RootOf(p), n, [], []) else []
            else []
  {
    StanzaWarningsAre(env.proxies[n]);
    var tls := env.proxies[n].vhost.value.tls;
    EntersWhen(env, n);
    if env.proxies[n].tcp.Some? ==> tls.Some? {
      WalkedWarnings(env, n, if tls.Some? then tls.value.soft else []);
    }
  }
}
