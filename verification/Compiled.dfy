/** A proxy without errors is fully compiled. */
module Compiled {
  import opened Text
  import opened Dag
  import opened Kube
  import opened Conditions
  import opened Expansion
  import opened Proxies
  import opened Compiler
  import opened Services
  import opened Meaning

  // ----- routes ---------------------------------------------------------------------------------

  /** A route goes somewhere: to a cluster, to a fixed response, or to a redirect. */
  predicate Answers(r: Route)
  {
    r.clusters != [] || r.directResponse.Some? || r.redirect.Some?
  }

  lemma BuiltWithoutIssues(env: Env, root: Root, ns: string, conds: seq<MatchCondition>, r: RouteSpec)
    ensures var b := BuildRoute(env, root, ns, conds, r);
            && (b.route.None? ==> b.issues != [])
            && (b.route.Some? ==> Answers(b.route.value))
            && (b.issues == [] ==>
                  && (forall i :: 0 <= i < |r.services| ==> RefOk(env, ns, r.services[i]))
                  && b.route.value.clusters == ClustersOf(env, ns, r.services, false))
  {
    ServicesKeepIssues(env, ns, r.services, NO_CLUSTERS);
    if WithServices(env, ns, r.services, NO_CLUSTERS).issues == [] {
      ServicesWithoutIssues(env, ns, r.services, NO_CLUSTERS);
      RouteTargets(env, ns, r.services);
    }
  }

  /** A route passes all checks: its own conditions are a valid block, no header condition of the
      chain rejects a later one, the checks of header policies and of other policies pass,
      it has a service or a redirect, no prefix is replaced twice, every service is fine,
      and one mirror at most is among them. */
  ghost predicate Passes(env: Env, ns: string, conds: seq<MatchCondition>, r: RouteSpec)
  {
    && PathBlockOk(r.conditions) && NoRejection(HeadersOf(conds + r.conditions))
    && r.headersCheck.None? && r.policyCheck.None?
    && (r.services != [] || r.redirect.Some?)
    && ReplacementsOk(r.replacements)
    && (forall i :: 0 <= i < |r.services| ==> RefOk(env, ns, r.services[i]))
    && (forall i, j :: 0 <= i < j < |r.services| ==> !(r.services[i].mirror && r.services[j].mirror))
  }

  /** Among services that are fine, one mirror at most is there exactly if one at most is named. */
  lemma {:induction false} MirrorsAreNamed(env: Env, ns: string, refs: seq<ServiceRef>)
    requires forall i :: 0 <= i < |refs| ==> RefOk(env, ns, refs[i])
    ensures ClustersOf(env, ns, refs, true) == [] <==> forall i :: 0 <= i < |refs| ==> !refs[i].mirror
    ensures |ClustersOf(env, ns, refs, true)| <= 1 <==>
            forall i, j :: 0 <= i < j < |refs| ==> !(refs[i].mirror && refs[j].mirror)
  {
    if refs != [] {
      var rest := refs[1..];
      MirrorsAreNamed(env, ns, rest);
      assert forall i :: 1 <= i < |refs| ==> refs[i] == rest[i - 1];
      assert forall i :: 0 <= i < |rest| ==> rest[i] == refs[i + 1];
      OneMirrorStep(refs, rest);
    }
  }

  lemma OneMirrorStep(refs: seq<ServiceRef>, rest: seq<ServiceRef>)
    requires refs != [] && rest == refs[1..]
    ensures (forall i, j :: 0 <= i < j < |refs| ==> !(refs[i].mirror && refs[j].mirror)) <==>
            && (forall i, j :: 0 <= i < j < |rest| ==> !(rest[i].mirror && rest[j].mirror))
            && (refs[0].mirror ==> forall i :: 0 <= i < |rest| ==> !rest[i].mirror)
  {
    assert forall i :: 1 <= i < |refs| ==> refs[i] == rest[i - 1];
    assert forall i :: 0 <= i < |rest| ==> rest[i] == refs[i + 1];
  }

  /** The services of a route report nothing exactly when each is fine and one mirror at most is
      among them. */
  lemma ServicesAreQuietWhen(env: Env, ns: string, refs: seq<ServiceRef>)
    ensures WithServices(env, ns, refs, NO_CLUSTERS).issues == [] <==>
            && (forall i :: 0 <= i < |refs| ==> RefOk(env, ns, refs[i]))
            && (forall i, j :: 0 <= i < j < |refs| ==> !(refs[i].mirror && refs[j].mirror))
  {
    RouteTargets(env, ns, refs);
    ServicesKeepIssues(env, ns, refs, NO_CLUSTERS);
    if WithServices(env, ns, refs, NO_CLUSTERS).issues == [] {
      ServicesWithoutIssues(env, ns, refs, NO_CLUSTERS);
    }
    if forall i :: 0 <= i < |refs| ==> RefOk(env, ns, refs[i]) {
      MirrorsAreNamed(env, ns, refs);
      if Kept(env, ns, refs) {
        FineServices(env, ns, refs, NO_CLUSTERS);
      }
    }
  }

  /** A route reports nothing. */
  ghost predicate Quiet(env: Env, root: Root, ns: string, conds: seq<MatchCondition>, r: RouteSpec)
  {
    BuildRoute(env, root, ns, conds, r).issues == []
  }

  lemma QuietWhen(env: Env, root: Root, ns: string, conds: seq<MatchCondition>, r: RouteSpec)
    ensures Quiet(env, root, ns, conds, r) <==> Passes(env, ns, conds, r)
  {
    EarlyPassesWhen(conds, r);
    BuiltIsQuietWhen(env, root, ns, conds, r);
    ServicesAreQuietWhen(env, ns, r.services);
  }

  lemma EarlyPassesWhen(conds: seq<MatchCondition>, r: RouteSpec)
    ensures EarlyIssue(conds, r).None? <==>
            && PathBlockOk(r.conditions) && NoRejection(HeadersOf(conds + r.conditions))
            && r.headersCheck.None? && r.policyCheck.None?
            && (r.services != [] || r.redirect.Some?)
  {
  }

  lemma BuiltIsQuietWhen(env: Env, root: Root, ns: string, conds: seq<MatchCondition>, r: RouteSpec)
    ensures Quiet(env, root, ns, conds, r) <==>
            && EarlyIssue(conds, r).None? && ReplacementsOk(r.replacements)
            && WithServices(env, ns, r.services, NO_CLUSTERS).issues == []
  {
  }

  lemma RoutesStep(env: Env, root: Root, ns: string, conds: seq<MatchCondition>, rs: seq<RouteSpec>)
    requires rs != []
    ensures RouteIssues(env, root, ns, conds, rs) == [] <==>
            Quiet(env, root, ns, conds, rs[0]) && RouteIssues(env, root, ns, conds, rs[1..]) == []
    ensures Quiet(env, root, ns, conds, rs[0]) && OwnRoutes(env, root, ns, conds, rs[1..]).Some? ==>
              OwnRoutes(env, root, ns, conds, rs).Some?
  {
    BuiltWithoutIssues(env, root, ns, conds, rs[0]);
  }

  /** The routes of a proxy report nothing exactly when each of them does. */
  lemma {:induction false} RoutesWithoutIssues(env: Env, root: Root, ns: string, conds: seq<MatchCondition>,
                                               rs: seq<RouteSpec>)
    ensures RouteIssues(env, root, ns, conds, rs) == [] <==>
            forall j :: 0 <= j < |rs| ==> Quiet(env, root, ns, conds, rs[j])
    ensures RouteIssues(env, root, ns, conds, rs) == [] ==> OwnRoutes(env, root, ns, conds, rs).Some?
  {
    if rs != [] {
      RoutesStep(env, root, ns, conds, rs);
      RoutesWithoutIssues(env, root, ns, conds, rs[1..]);
      assert forall j :: 0 <= j < |rs[1..]| ==> rs[1..][j] == rs[j + 1];
      assert forall j :: 0 < j < |rs| ==> rs[j] == rs[1..][j - 1];
    }
  }

  lemma {:induction false} IncludesWithoutIssues(env: Env, p: Proxy, incs: seq<Include>)
    ensures IncludeIssues(env, p, incs) == [] <==> forall i :: 0 <= i < |incs| ==> OutcomeOf(env, p, incs[i]) == Follow
  {
    if incs != [] {
      IncludesWithoutIssues(env, p, incs[1..]);
      assert forall i :: 0 <= i < |incs[1..]| ==> incs[1..][i] == incs[i + 1];
      if forall i :: 0 <= i < |incs| ==> OutcomeOf(env, p, incs[i]) == Follow {
        assert OutcomeOf(env, p, incs[0]) == Follow;
      }
      if IncludeIssues(env, p, incs) == [] {
        forall i | 0 <= i < |incs|
          ensures OutcomeOf(env, p, incs[i]) == Follow
        {
          assert i > 0 ==> incs[1..][i - 1] == incs[i];
        }
      }
    }
  }

  // ----- a whole proxy -----------------------------------------------------------------------------

  /** A call of computeRoutes adds no error to the condition of its proxy exactly when the
      proxy is not on its own path, no neighbouring includes share a condition, every
      include is followed and every route passes all checks. */
  lemma NoErrorWhen(env: Env, root: Root, name: Name, conds: seq<MatchCondition>, visited: seq<Name>)
    requires name in env.proxies
    ensures var p := env.proxies[name];
            OwnIssues(env, root, name, conds, visited) == [] <==>
              && name !in visited
              && !IncludesIdentical(p.includes)
              && (forall i :: 0 <= i < |p.includes| ==> OutcomeOf(env, p, p.includes[i]) == Follow)
              && (forall j :: 0 <= j < |p.routes| ==> Passes(env, p.name.namespace, conds, p.routes[j]))
  {
    var p := env.proxies[name];
    IncludesWithoutIssues(env, p, p.includes);
    RoutesPass(env, root, p.name.namespace, conds, p.routes);
  }

  lemma RoutesPass(env: Env, root: Root, ns: string, conds: seq<MatchCondition>, rs: seq<RouteSpec>)
    ensures RouteIssues(env, root, ns, conds, rs) == [] <==>
            forall j :: 0 <= j < |rs| ==> Passes(env, ns, conds, rs[j])
  {
    RoutesWithoutIssues(env, root, ns, conds, rs);
    forall j | 0 <= j < |rs|
      ensures Quiet(env, root, ns, conds, rs[j]) <==> Passes(env, ns, conds, rs[j])
    {
      QuietWhen(env, root, ns, conds, rs[j]);
    }
  }

  /** And then everything is in the table: what the includes give, and of each own route
      its final forms, each of which answers; every service of it has been resolved, and
      its clusters are those of its services. */
  lemma ValidMeansCompiled(env: Env, root: Root, name: Name, conds: seq<MatchCondition>, visited: seq<Name>, j: nat)
    requires name in env.proxies && Absolute(conds)
    requires OwnIssues(env, root, name, conds, visited) == [] && j < |env.proxies[name].routes|
    ensures var p := env.proxies[name];
            var ns := p.name.namespace;
            var b := BuildRoute(env, root, ns, conds, p.routes[j]);
            && b.route.Some? && Answers(b.route.value)
            && (forall i :: 0 <= i < |p.routes[j].services| ==> RefOk(env, ns, p.routes[j].services[i]))
            && b.route.value.clusters == ClustersOf(env, ns, p.routes[j].services, false)
            && IsAddress(env, name, Address([], j)) && BuiltAt(env, root, name, conds, Address([], j)) == b
            && (forall form :: form in FormsAt(env, root, name, conds, visited, Address([], j)) ==>
                  Answers(form) && form in Emit(env, root, name, conds, visited))
  {
    NoErrorWhen(env, root, name, conds, visited);
    var p := env.proxies[name];
    QuietRouteIsBuilt(env, root, p.name.namespace, conds, p.routes, j);
    OwnBuiltAt(env, root, name, conds, j);
    OwnFormsAreThere(env, root, name, conds, visited, j);
  }

  lemma OwnBuiltAt(env: Env, root: Root, name: Name, conds: seq<MatchCondition>, j: nat)
    requires name in env.proxies && j < |env.proxies[name].routes|
    ensures IsAddress(env, name, Address([], j))
    ensures var p := env.proxies[name];
            BuiltAt(env, root, name, conds, Address([], j)) ==
            BuildRoute(env, root, p.name.namespace, conds, p.routes[j])
  {
    NothingAfter(conds);
    assert NodeAt(env, name, []) == Some(name) && CondsAt(env, name, []) == [];
  }

  lemma NothingAfter(conds: seq<MatchCondition>)
    ensures conds + [] == conds
  {
  }

  lemma QuietRouteIsBuilt(env: Env, root: Root, ns: string, conds: seq<MatchCondition>, rs: seq<RouteSpec>, j: nat)
    requires RouteIssues(env, root, ns, conds, rs) == [] && j < |rs|
    ensures var b, own := BuildRoute(env, root, ns, conds, rs[j]), OwnRoutes(env, root, ns, conds, rs);
            && own.Some? && b.route == Some(own.value[j]) && Answers(b.route.value)
            && (forall i :: 0 <= i < |rs[j].services| ==> RefOk(env, ns, rs[j].services[i]))
            && b.route.value.clusters == ClustersOf(env, ns, rs[j].services, false)
  {
    RoutesWithoutIssues(env, root, ns, conds, rs);
    BuiltWithoutIssues(env, root, ns, conds, rs[j]);
    OwnRoutesAt(env, root, ns, conds, rs, j);
  }

  lemma OwnFormsAreThere(env: Env, root: Root, name: Name, conds: seq<MatchCondition>, visited: seq<Name>, j: nat)
    requires name in env.proxies && name !in visited && !IncludesIdentical(env.proxies[name].includes)
    requires Absolute(conds)
    requires var p := env.proxies[name];
             var own := OwnRoutes(env, root, p.name.namespace, conds, p.routes);
             own.Some? && j < |p.routes| && Answers(own.value[j])
    ensures IsAddress(env, name, Address([], j))
    ensures forall form :: form in FormsAt(env, root, name, conds, visited, Address([], j)) ==>
              Answers(form) && form in Emit(env, root, name, conds, visited)
  {
    var p := env.proxies[name];
    EmitIsBelowAndOwn(env, root, name, conds, visited);
    OwnFormsAt(env, root, name, conds, visited, j);
    var own := OwnRoutes(env, root, p.name.namespace, conds, p.routes).value;
    var all := EmitIncludes(env, root, p, p.includes, conds, visited + [name]) + own;
    var lone := Lone(own[j], all);
    forall form | form in Forms(own[j], lone)
      ensures Answers(form) && form in Emit(env, root, name, conds, visited)
    {
      ExpandInContains(own, all, j, form);
    }
  }

  // ----- TCP ------------------------------------------------------------------------------------------

  ghost predicate AllQuiet(cs: seq<Commit>)
  {
    forall i :: 0 <= i < |cs| ==> cs[i].issues == []
  }

  lemma AllQuietSnoc(cs: seq<Commit>, c: Commit)
    ensures AllQuiet(cs + [c]) <==> AllQuiet(cs) && c.issues == []
  {
    var all := cs + [c];
    assert all[|cs|] == c;
    assert forall i :: 0 <= i < |cs| ==> all[i] == cs[i];
  }

  /** A TCP proxy is set up exactly when no proxy on the chain is given an error. When it
      fails further down the chain, the error is there, and the proxy at the top has none. */
  lemma {:induction false} TCPFailureIsReported(env: Env, name: Name, visited: seq<Name>)
    requires name in env.proxies && name !in visited
    ensures TCPWalk(env, name, visited).ok <==>
            TCPIssues(env, name, visited) == [] && AllQuiet(TCPCommits(env, name, visited))
    ensures !TCPWalk(env, name, visited).ok && TCPIssues(env, name, visited) == [] <==>
            !AllQuiet(TCPCommits(env, name, visited))
    decreases env.proxies.Keys - Seen(visited)
  {
    var step := TCPStepOf(env, env.proxies[name]);
    if step.TCPFollow? && step.target !in visited + [name] {
      SeenGrows(env.proxies.Keys, visited, name);
      TCPFailureIsReported(env, step.target, visited + [name]);
      AllQuietSnoc(TCPCommits(env, step.target, visited + [name]),
                   Commit(step.target, TCPIssues(env, step.target, visited + [name]),
                          TCPWarnings(env.proxies[step.target])));
    }
  }
}
