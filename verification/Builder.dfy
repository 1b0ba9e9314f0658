/** A build (internal/dag/builder.go): an empty table and an empty status cache, filled by
    the HTTPProxy processor. */
module Builder {
  import opened Dag
  import opened Kube
  import opened Proxies
  import opened Status
  import opened Builds
  import opened Lookups
  import opened Cache
  import opened Reporting
  import opened VirtualHosts
  import opened Walks
  import opened Rounds
  import opened Processor

  const NO_HOSTS := Hosts(map[], map[], map[])

  /** A host has the routes and the TCP proxy of its entry in a table, and nothing else. */
  ghost predicate HostServed(t: Host, h: Hosts, added: seq<Route>)
  {
    && multiset(added) == t.insecure
    && RoutesOf(h.insecure, t.fqdn) == Added(map[], added)
    && RoutesOf(h.secure, t.fqdn) == (if t.secure == multiset{} then map[] else Added(map[], added))
    && (if t.tcp.Some? then t.fqdn in h.tcp && h.tcp[t.fqdn] == t.tcp.value else t.fqdn !in h.tcp)
  }

  ghost predicate Unserved(h: Hosts, host: string)
  {
    RoutesOf(h.insecure, host) == map[] && RoutesOf(h.secure, host) == map[] && host !in h.tcp
  }

  /** The hosts serve exactly a table. */
  ghost predicate Serves(t: map<Name, Host>, h: Hosts)
  {
    && (forall n :: n in t ==> exists added :: HostServed(t[n], h, added))
    && (forall host :: (forall n :: n in t ==> t[n].fqdn != host) ==> Unserved(h, host))
  }

  lemma GivenIsServed(env: Env, n: Name, h: Hosts, added: seq<Route>)
    requires IsProcessed(env, n) && Given(env, n, NO_HOSTS, h, added)
    ensures HostServed(HostOf(env, n), h, added)
  {
    var t := HostOf(env, n);
    assert multiset(added) == t.insecure;
    if t.secure == multiset{} && t.insecure == multiset{} {
      assert |added| == |multiset(added)|;
      assert added == [];
    }
  }

  lemma RunServesTable(env: Env, h: Hosts, given: map<Name, seq<Route>>)
    requires forall n :: IsProcessed(env, n) ==> n in given && Given(env, n, NO_HOSTS, h, given[n])
    requires forall host :: HostOfNone(env, host) ==> SameHost(NO_HOSTS, h, host)
    ensures Serves(TableOf(env), h)
  {
    var t := TableOf(env);
    forall n | n in t
      ensures t[n] == HostOf(env, n) && t[n].fqdn == Fqdn(env, n) && HostServed(t[n], h, given[n])
    {
      GivenIsServed(env, n, h, given[n]);
    }
    forall host | forall n :: n in t ==> t[n].fqdn != host
      ensures Unserved(h, host)
    {
      forall n | IsProcessed(env, n)
        ensures Fqdn(env, n) != host
      {
        assert n in t;
      }
      assert SameHost(NO_HOSTS, h, host);
    }
  }

  /** Builder.Build: whatever the order of map ranges, the hosts serve exactly the table of
      the cached objects, and every proxy has the status that the build calls for. */
  method Build(settings: Settings, source: KubernetesCache) returns (dag: Hosts, statuses: StatusCache)
    ensures Serves(TableOf(EnvOf(settings, source.Now())), dag)
    ensures fresh(statuses) && Sound(statuses.Now())
    ensures ViewOf(statuses.Now()).Keys == source.httpproxies.Keys
    ensures forall n :: n in source.httpproxies ==>
              ViewOf(statuses.Now())[n].status ==
              if IsBlamed(EnvOf(settings, source.Now()), n) then ConditionFalse else ConditionTrue
  {
    var env := Env(source.httpproxies, source.services, settings.rootNamespaces, settings.externalNames,
                   settings.disablePermitInsecure);
    statuses := new StatusCache();
    var p := new HTTPProxyProcessor(env, statuses);
    var cs, given := p.Run();
    dag := Hosts(p.insecure, p.secure, p.tcpProxies);
    RunServesTable(env, dag, given);
    StatusIsDetermined(env, statuses.Now(), cs);
  }
}
