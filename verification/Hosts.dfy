/** What each host of the table serves and which proxies are orphans, told from the fields of the
    objects alone (computeHTTPProxy in internal/dag/httpproxy_processor.go). */
module Hosts {
  import opened Text
  import opened Dag
  import opened Kube
  import opened Proxies
  import opened Compiler
  import opened IncludeGraph
  import opened Reachability
  import opened Builds
  import opened Lookups
  import opened Edges
  import opened TCPChains

  ghost predicate HasHost(env: Env, n: Name)
  {
    n in env.proxies && env.proxies[n].vhost.Some?
  }

  /** Two hosts are one, the case of letters aside. */
  ghost predicate SameHostName(a: string, b: string)
  {
    |a| == |b| && forall i :: 0 <= i < |a| ==> SameButCase(a[i], b[i])
  }

  /** A root gets past the checks before its stanzas: its host is not blank, its namespace may
      hold roots, it has a route, an include or a TCP stanza, and its TLS settings, if it has
      any, are not fatally wrong. */
  ghost predicate Enters(env: Env, n: Name)
    requires HasHost(env, n)
  {
    var p := env.proxies[n];
    && (exists i :: 0 <= i < |p.vhost.value.fqdn| && !IsSpace(p.vhost.value.fqdn[i]))
    && (env.rootNamespaces == [] || p.name.namespace in env.rootNamespaces)
    && (p.routes != [] || p.includes != [] || p.tcp.Some?)
    && (p.vhost.value.tls.Some? ==> p.vhost.value.tls.value.fatal.None?)
  }

  /** A chain of TCP includes from n ends at these clusters, or, if there are none, at a proxy
      without a TCP stanza. */
  ghost predicate ChainEnds(env: Env, n: Name, cs: Option<seq<Cluster>>)
  {
    exists p :: IsTCPChain(env, p, n, []) && EndsWith(env, p[|p| - 1], cs)
  }

  /** The TCP stanza of a root, if it has one, does not keep it from its routes: there is TLS, and
      the chain from it ends well. */
  ghost predicate PassesTCP(env: Env, n: Name)
    requires HasHost(env, n)
  {
    env.proxies[n].tcp.Some? ==> env.proxies[n].vhost.value.tls.Some? && exists cs :: ChainEnds(env, n, cs)
  }

  lemma EntersWhen(env: Env, n: Name)
    requires HasHost(env, n)
    ensures Enters(env, n) <==>
            && GateIssue(env, env.proxies[n]).None?
            && (env.proxies[n].vhost.value.tls.Some? ==> env.proxies[n].vhost.value.tls.value.fatal.None?)
  {
    TrimSpaceIsEmptyWhen(env.proxies[n].vhost.value.fqdn);
  }

  lemma ChainsDecide(env: Env, n: Name)
    requires HasHost(env, n)
    ensures forall cs :: ChainEnds(env, n, cs) <==> TCPWalk(env, n, []) == TCPResult(true, cs)
  {
    forall cs
      ensures ChainEnds(env, n, cs) <==> TCPWalk(env, n, []) == TCPResult(true, cs)
    {
      TCPMeaning(env, n, [], cs);
    }
  }

  lemma PassesTCPWhen(env: Env, n: Name)
    requires HasHost(env, n) && env.proxies[n].tcp.Some?
    ensures PassesTCP(env, n) <==> env.proxies[n].vhost.value.tls.Some? && TCPWalk(env, n, []).ok
  {
    ChainsDecide(env, n);
    if TCPWalk(env, n, []).ok {
      assert ChainEnds(env, n, TCPWalk(env, n, []).clusters);
    }
  }

  /** The host of a root has a TCP proxy exactly if the root gets that far, with TLS and a stanza, and
      a chain of TCP includes from it ends at services; and its clusters are theirs. */
  lemma TCPOfHost(env: Env, n: Name, cs: seq<Cluster>)
    requires HasHost(env, n)
    ensures HostOf(env, n).tcp == Some(cs) <==>
            && Enters(env, n)
            && env.proxies[n].vhost.value.tls.Some? && env.proxies[n].tcp.Some?
            && ChainEnds(env, n, Some(cs))
  {
    EntersWhen(env, n);
    ChainsDecide(env, n);
  }

  /** A root gets its routes onto its host: it gets that far, its TCP stanza does not keep it from
      them, and the checks made after they are computed pass. */
  ghost predicate ServesRoutes(env: Env, n: Name)
    requires HasHost(env, n)
  {
    Enters(env, n) && PassesTCP(env, n) && env.proxies[n].vhost.value.laterCheck.None?
  }

  ghost function RoutesOf(env: Env, n: Name): (routes: multiset<Route>)
    requires HasHost(env, n)
  {
    var vh := env.proxies[n].vhost.value;
    multiset(Emit(env, Root(vh.fqdn, vh.tls.Some?), n, [], []))
  }

  /** Exactly then the plain host serves the compiled routes of the root, and the secure one does if
      in addition there is TLS and no TCP stanza; otherwise they serve no routes. */
  lemma RoutesOfHost(env: Env, n: Name)
    requires HasHost(env, n)
    ensures var h, vh := HostOf(env, n), env.proxies[n].vhost.value;
            && h.fqdn == vh.fqdn
            && h.insecure == (if ServesRoutes(env, n) then RoutesOf(env, n) else multiset{})
            && h.secure == (if ServesRoutes(env, n) && vh.tls.Some? && env.proxies[n].tcp.None?
                            then RoutesOf(env, n) else multiset{})
  {
    EntersWhen(env, n);
    if env.proxies[n].tcp.Some? {
      PassesTCPWhen(env, n);
    }
  }

  lemma UniqueWhen(env: Env, n: Name)
    requires HasHost(env, n)
    ensures HostIsUnique(env, n) <==>
            forall m :: HasHost(env, m) && m != n ==>
                !SameHostName(env.proxies[m].vhost.value.fqdn, env.proxies[n].vhost.value.fqdn)
  {
    forall m | HasHost(env, m)
      ensures SameHostName(env.proxies[m].vhost.value.fqdn, env.proxies[n].vhost.value.fqdn) <==>
              ToLower(env.proxies[m].vhost.value.fqdn) == ToLower(env.proxies[n].vhost.value.fqdn)
    {
      LowerTells(env.proxies[m].vhost.value.fqdn, env.proxies[n].vhost.value.fqdn);
    }
    assert forall m :: HasHost(env, m) <==> IsRootProxy(env, m);
  }

  /** The table has a host for exactly the roots whose host no other root uses in any case. */
  lemma TableHasWhen(env: Env, n: Name)
    ensures n in TableOf(env) <==>
            HasHost(env, n) && forall m :: HasHost(env, m) && m != n ==>
                !SameHostName(env.proxies[m].vhost.value.fqdn, env.proxies[n].vhost.value.fqdn)
    ensures n in TableOf(env) ==> TableOf(env)[n] == HostOf(env, n)
  {
    if HasHost(env, n) {
      UniqueWhen(env, n);
    }
  }

  // ----- orphans ---------------------------------------------------------------------------------------

  lemma TCPIsWalkedWhen(env: Env, r: Name)
    requires HasHost(env, r)
    ensures Process(env, r).walksTCP <==>
            Enters(env, r) && env.proxies[r].tcp.Some? && env.proxies[r].vhost.value.tls.Some?
  {
    EntersWhen(env, r);
  }

  lemma RoutesAreWalkedWhen(env: Env, r: Name)
    requires HasHost(env, r)
    ensures Process(env, r).walksRoutes <==> Enters(env, r) && PassesTCP(env, r)
  {
    EntersWhen(env, r);
    if env.proxies[r].tcp.Some? {
      PassesTCPWhen(env, r);
    }
  }

  lemma WalksWhen(env: Env, r: Name)
    ensures WalksTCPFrom(env, r) <==>
            r in TableOf(env) && Enters(env, r) && env.proxies[r].tcp.Some? && env.proxies[r].vhost.value.tls.Some?
    ensures WalksRoutesFrom(env, r) <==> r in TableOf(env) && Enters(env, r) && PassesTCP(env, r)
  {
    assert r in TableOf(env) <==> IsProcessed(env, r);
    if r in TableOf(env) {
      TCPIsWalkedWhen(env, r);
      RoutesAreWalkedWhen(env, r);
    }
  }

  /** A path along includes of routes, or of TCP stanzas, leads to the proxy from a root that has a
      host of its own and gets as far as following them. */
  ghost predicate IsIncluded(env: Env, n: Name)
  {
    || (exists r, path :: r in TableOf(env) && Enters(env, r) && PassesTCP(env, r) && IsRoutePath(env, path, r, n))
    || (exists r, path :: r in TableOf(env) && Enters(env, r) && env.proxies[r].tcp.Some?
                          && env.proxies[r].vhost.value.tls.Some? && IsTCPPath(env, path, r, n))
  }

  /** Of proxies with namespaces, exactly those without a host are orphans to which no such path
      leads. */
  lemma OrphansByFields(env: Env, n: Name)
    requires WellKeyed(env)
    ensures n in Orphans(env) <==> n in env.proxies && env.proxies[n].vhost.None? && !IsIncluded(env, n)
  {
    OrphansAreUnreachable(env, n);
    forall r, path
      ensures WalksRoutesFrom(env, r) && Leads(RouteGraph(env), path, r, n) <==>
              r in TableOf(env) && Enters(env, r) && PassesTCP(env, r) && IsRoutePath(env, path, r, n)
      ensures WalksTCPFrom(env, r) && Leads(TCPGraph(env), path, r, n) <==>
              && r in TableOf(env) && Enters(env, r) && env.proxies[r].tcp.Some?
              && env.proxies[r].vhost.value.tls.Some? && IsTCPPath(env, path, r, n)
    {
      WalksWhen(env, r);
      RoutePathsAre(env, path, r, n);
      TCPPathsAre(env, path, r, n);
    }
  }
}
