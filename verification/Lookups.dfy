/** The table that a build publishes, and what it depends on: the proxies, and of the
    services only those that a proxy names. */
module Lookups {
  import opened Text
  import opened Dag
  import opened Kube
  import opened Conditions
  import opened Issues
  import opened Proxies
  import opened Compiler
  import opened Builds

  /** What the host of a root is given: its routes, on the plain and on the secure
      listener, and its TCP proxy. */
  datatype Host = Host(fqdn: string, insecure: multiset<Route>, secure: multiset<Route>, tcp: Option<seq<Cluster>>)

  ghost function HostOf(env: Env, n: Name): (h: Host)
    requires IsRootProxy(env, n)
  {
    var p, r := env.proxies[n], Process(env, n);
    var routes := if r.routes.Some? then multiset(r.routes.value) else multiset{};
    Host(p.vhost.value.fqdn, routes, if p.vhost.value.tls.Some? && p.tcp.None? then routes else multiset{}, r.tcp)
  }

  /** The routes and TCP proxies of a build, host by host. */
  ghost function TableOf(env: Env): (t: map<Name, Host>)
  {
    map n | n in env.proxies && IsProcessed(env, n) :: HostOf(env, n)
  }

  // ----- references ---------------------------------------------------------------------

  predicate Names(refs: seq<ServiceRef>, s: string)
  {
    exists i :: 0 <= i < |refs| && refs[i].name == s
  }

  /** A route or the TCP stanza of the proxy names the service. */
  predicate References(p: Proxy, s: string)
  {
    || (exists j :: 0 <= j < |p.routes| && Names(p.routes[j].services, s))
    || (p.tcp.Some? && Names(p.tcp.value.services, s))
  }

  predicate SameService(a: map<Name, Service>, b: map<Name, Service>, n: Name)
  {
    (n in a <==> n in b) && (n in a ==> a[n] == b[n])
  }

  /** Two environments differ at most in services that no proxy names. */
  ghost predicate SameLookups(a: Env, b: Env)
  {
    && a == b.(services := a.services)
    && forall n, s :: n in a.proxies && References(a.proxies[n], s) ==>
         SameService(a.services, b.services, Name(a.proxies[n].name.namespace, s))
  }

  /** The services of a list are looked up alike in both environments. */
  ghost predicate SameRefs(a: Env, b: Env, ns: string, refs: seq<ServiceRef>)
  {
    a.externalNames == b.externalNames
    && forall i :: 0 <= i < |refs| ==> SameService(a.services, b.services, Name(ns, refs[i].name))
  }

  lemma ReferencesAreSame(a: Env, b: Env, n: Name)
    requires SameLookups(a, b) && n in a.proxies
    ensures var p := a.proxies[n];
            && (forall j :: 0 <= j < |p.routes| ==> SameRefs(a, b, p.name.namespace, p.routes[j].services))
            && (p.tcp.Some? ==> SameRefs(a, b, p.name.namespace, p.tcp.value.services))
  {
    var p := a.proxies[n];
    forall j, i | 0 <= j < |p.routes| && 0 <= i < |p.routes[j].services|
      ensures SameService(a.services, b.services, Name(p.name.namespace, p.routes[j].services[i].name))
    {
      assert Names(p.routes[j].services, p.routes[j].services[i].name);
      assert References(p, p.routes[j].services[i].name);
    }
    if p.tcp.Some? {
      forall i | 0 <= i < |p.tcp.value.services|
        ensures SameService(a.services, b.services, Name(p.name.namespace, p.tcp.value.services[i].name))
      {
        assert Names(p.tcp.value.services, p.tcp.value.services[i].name);
        assert References(p, p.tcp.value.services[i].name);
      }
    }
  }

  // ----- the same lookups give the same table ------------------------------------------------

  lemma UpstreamsAreSame(a: Env, b: Env, ns: string, ref: ServiceRef)
    requires a.externalNames == b.externalNames && SameService(a.services, b.services, Name(ns, ref.name))
    ensures UpstreamOf(a, ns, ref) == UpstreamOf(b, ns, ref)
  {
  }

  lemma {:induction false} ClustersAreSame(a: Env, b: Env, ns: string, refs: seq<ServiceRef>, acc: Clusters)
    requires SameRefs(a, b, ns, refs)
    ensures WithServices(a, ns, refs, acc) == WithServices(b, ns, refs, acc)
  {
    if refs != [] && !acc.fatal {
      UpstreamsAreSame(a, b, ns, refs[0]);
      assert WithService(a, ns, refs[0], acc) == WithService(b, ns, refs[0], acc);
      ClustersAreSame(a, b, ns, refs[1..], WithService(a, ns, refs[0], acc));
    }
  }

  lemma {:induction false} TCPClustersAreSame(a: Env, b: Env, ns: string, refs: seq<ServiceRef>, acc: TCPClusters)
    requires SameRefs(a, b, ns, refs)
    ensures WithTCPServices(a, ns, refs, acc) == WithTCPServices(b, ns, refs, acc)
  {
    if refs != [] && !acc.failure.Some? {
      UpstreamsAreSame(a, b, ns, refs[0]);
      TCPClustersAreSame(a, b, ns, refs[1..], WithTCPService(a, ns, refs[0], acc));
    }
  }

  lemma BuiltAreSame(a: Env, b: Env, root: Root, ns: string, conds: seq<MatchCondition>, r: RouteSpec)
    requires SameRefs(a, b, ns, r.services) && a.disablePermitInsecure == b.disablePermitInsecure
    ensures BuildRoute(a, root, ns, conds, r) == BuildRoute(b, root, ns, conds, r)
  {
    ClustersAreSame(a, b, ns, r.services, NO_CLUSTERS);
  }

  lemma {:induction false} OwnRoutesAreSame(a: Env, b: Env, root: Root, ns: string, conds: seq<MatchCondition>,
                                            rs: seq<RouteSpec>)
    requires forall j :: 0 <= j < |rs| ==> SameRefs(a, b, ns, rs[j].services)
    requires a.disablePermitInsecure == b.disablePermitInsecure
    ensures OwnRoutes(a, root, ns, conds, rs) == OwnRoutes(b, root, ns, conds, rs)
  {
    if rs != [] {
      BuiltAreSame(a, b, root, ns, conds, rs[0]);
      OwnRoutesAreSame(a, b, root, ns, conds, rs[1..]);
    }
  }

  lemma {:induction false} EmitIsSame(a: Env, b: Env, root: Root, name: Name, conds: seq<MatchCondition>,
                                      visited: seq<Name>)
    requires SameLookups(a, b) && name in a.proxies
    ensures Emit(a, root, name, conds, visited) == Emit(b, root, name, conds, visited)
    decreases a.proxies.Keys - Seen(visited), 0, 0
  {
    var p := a.proxies[name];
    if name !in visited && !IncludesIdentical(p.includes) {
      SeenGrows(a.proxies.Keys, visited, name);
      EmitIncludesIsSame(a, b, root, p, p.includes, conds, visited + [name]);
      ReferencesAreSame(a, b, name);
      OwnRoutesAreSame(a, b, root, p.name.namespace, conds, p.routes);
    }
  }

  lemma {:induction false} EmitIncludesIsSame(a: Env, b: Env, root: Root, p: Proxy, incs: seq<Include>,
                                              conds: seq<MatchCondition>, visited: seq<Name>)
    requires SameLookups(a, b)
    ensures EmitIncludes(a, root, p, incs, conds, visited) == EmitIncludes(b, root, p, incs, conds, visited)
    decreases a.proxies.Keys - Seen(visited), 1, |incs|
  {
    if incs != [] {
      assert OutcomeOf(a, p, incs[0]) == OutcomeOf(b, p, incs[0]);
      EmitIncludesIsSame(a, b, root, p, incs[1..], conds, visited);
      if OutcomeOf(a, p, incs[0]) == Follow {
        EmitIsSame(a, b, root, TargetOf(p, incs[0]), conds + incs[0].conditions, visited);
      }
    }
  }

  lemma TCPStepIsSame(a: Env, b: Env, n: Name)
    requires SameLookups(a, b) && n in a.proxies
    ensures TCPStepOf(a, a.proxies[n]) == TCPStepOf(b, b.proxies[n])
  {
    var p := a.proxies[n];
    ReferencesAreSame(a, b, n);
    if p.tcp.Some? {
      TCPClustersAreSame(a, b, p.name.namespace, p.tcp.value.services, TCPClusters([], None));
    }
  }

  lemma {:induction false} TCPWalkIsSame(a: Env, b: Env, name: Name, visited: seq<Name>)
    requires SameLookups(a, b) && name in a.proxies && name !in visited
    ensures TCPWalk(a, name, visited) == TCPWalk(b, name, visited)
    decreases a.proxies.Keys - Seen(visited)
  {
    TCPStepIsSame(a, b, name);
    var s := TCPStepOf(a, a.proxies[name]);
    if s.TCPFollow? && s.target !in visited + [name] {
      SeenGrows(a.proxies.Keys, visited, name);
      TCPWalkIsSame(a, b, s.target, visited + [name]);
    }
  }

  lemma WalksAreSame(a: Env, b: Env, n: Name, soft: seq<Issue>)
    requires SameLookups(a, b) && IsRootProxy(a, n)
    ensures Walked(a, n, soft).routes == Walked(b, n, soft).routes
    ensures Walked(a, n, soft).tcp == Walked(b, n, soft).tcp
  {
    TCPWalkIsSame(a, b, n, []);
    EmitIsSame(a, b, RootOf(a.proxies[n]), n, [], []);
  }

  lemma ProcessIsSame(a: Env, b: Env, n: Name)
    requires SameLookups(a, b) && IsRootProxy(a, n)
    ensures Process(a, n).routes == Process(b, n).routes && Process(a, n).tcp == Process(b, n).tcp
  {
    var p := a.proxies[n];
    var tls := p.vhost.value.tls;
    assert GateIssue(a, p) == GateIssue(b, p);
    WalksAreSame(a, b, n, if tls.Some? then tls.value.soft else []);
  }

  lemma HostIsSame(a: Env, b: Env, n: Name)
    requires SameLookups(a, b) && IsRootProxy(a, n)
    ensures HostOf(a, n) == HostOf(b, n)
  {
    ProcessIsSame(a, b, n);
  }

  /** The table depends on a service only if a proxy names it. */
  lemma TableIsSame(a: Env, b: Env)
    requires SameLookups(a, b)
    ensures TableOf(a) == TableOf(b)
  {
    forall n | n in a.proxies
      ensures IsProcessed(a, n) <==> IsProcessed(b, n)
      ensures IsProcessed(a, n) ==> HostOf(a, n) == HostOf(b, n)
    {
      if IsRootProxy(a, n) {
        HostIsSame(a, b, n);
      }
    }
  }
}
