/** A service without a namespace goes unnoticed by the rebuild filter: it is filed under
    "default" (internal/k8s/objectmeta.go) while the filter (internal/dag/cache.go) compares
    proxies with the empty namespace. */
module Unnoticed {
  import opened Text
  import opened Dag
  import opened Kube
  import opened Expansion
  import opened Proxies
  import opened Compiler
  import opened Builds
  import opened Lookups
  import opened Cache
  import opened Holdoff
  import opened Handler

  const LONE := Name("default", "root")

  /** A root with one route to one service. */
  function LoneRoot(service: string, port: int): (p: Proxy)
  {
    Proxy(LONE, 1, Some(VirtualHost("a.example", None, None)), [], [LoneRoute(service, port)], None)
  }

  function LoneRoute(service: string, port: int): (r: RouteSpec)
  {
    RouteSpec([], [ServiceRef(service, port, None, 1, false, None, None, 0)], [], None, false, None, None, [], 0)
  }

  function LoneCache(service: string, port: int): (c: Contents)
  {
    Contents(map[LONE := LoneRoot(service, port)], map[])
  }

  lemma LoneRouteIsBuilt(env: Env, root: Root, service: string, port: int)
    requires 1 <= port <= 65535
    ensures var b := BuildRoute(env, root, "default", [], LoneRoute(service, port));
            && b.route.Some? && b.route.value.rewrite == ""
            && (b.route.value.clusters == [] <==>
                Ensured(env.services, Name("default", service), port, env.externalNames).None?)
  {
    var refs := LoneRoute(service, port).services;
    assert [] + LoneRoute(service, port).conditions == [];
    assert WithServices(env, "default", refs, NO_CLUSTERS) == WithService(env, "default", refs[0], NO_CLUSTERS);
  }

  lemma OneOwnRoute(env: Env, root: Root, ns: string, r: RouteSpec, route: Route)
    requires BuildRoute(env, root, ns, [], r).route == Some(route)
    ensures OwnRoutes(env, root, ns, [], [r]) == Some([route])
  {
    var rs := [r];
    assert rs[1..] == [] && [route] + [] == [route];
    assert OwnRoutes(env, root, ns, [], rs[1..]) == Some([]);
  }

  lemma OneExpands(route: Route)
    requires IsPrefixRoute(route) && route.rewrite == ""
    ensures Expand([route]) == [route]
  {
    assert ExpandIn([route][1..], [route]) == [];
  }

  lemma OneIsEmitted(env: Env, root: Root, n: Name, route: Route)
    requires n in env.proxies && env.proxies[n].includes == []
    requires OwnRoutes(env, root, env.proxies[n].name.namespace, [], env.proxies[n].routes) == Some([route])
    requires IsPrefixRoute(route) && route.rewrite == ""
    ensures Emit(env, root, n, [], []) == [route]
  {
    assert EmitIncludes(env, root, env.proxies[n], [], [], [n]) == [] && [] + [route] == [route] && [] + [n] == [n];
    OneExpands(route);
  }

  lemma PlainHost(env: Env, n: Name)
    requires IsRootProxy(env, n) && GateIssue(env, env.proxies[n]).None? && env.proxies[n].tcp.None?
    requires env.proxies[n].vhost.value.tls.None? && env.proxies[n].vhost.value.laterCheck.None?
    ensures HostOf(env, n).insecure == multiset(Emit(env, RootOf(env.proxies[n]), n, [], []))
  {
  }

  lemma LoneHost(env: Env, service: string, port: int)
    requires env.proxies == map[LONE := LoneRoot(service, port)]
    ensures LONE in TableOf(env) && TableOf(env)[LONE] == HostOf(env, LONE)
  {
    assert IsProcessed(env, LONE);
  }

  lemma LoneGate(env: Env, service: string, port: int)
    requires RootAllowed(env, "default")
    ensures GateIssue(env, LoneRoot(service, port)).None?
  {
    assert "a.example"[0] == 'a';
  }

  /** The lone host has one route, which has clusters exactly if the service is there. */
  lemma LoneHostHasRoute(env: Env, service: string, port: int) returns (route: Route)
    requires 1 <= port <= 65535 && env.proxies == map[LONE := LoneRoot(service, port)] && RootAllowed(env, "default")
    ensures LONE in TableOf(env) && TableOf(env)[LONE].insecure == multiset{route}
    ensures route.clusters == [] <==> Ensured(env.services, Name("default", service), port, env.externalNames).None?
  {
    var root := RootOf(LoneRoot(service, port));
    LoneHost(env, service, port);
    LoneGate(env, service, port);
    PlainHost(env, LONE);
    LoneRouteIsBuilt(env, root, service, port);
    route := BuildRoute(env, root, "default", [], LoneRoute(service, port)).route.value;
    OneOwnRoute(env, root, "default", LoneRoute(service, port), route);
    OneIsEmitted(env, root, LONE, route);
  }

  lemma LoneTablesDiffer(a: Env, b: Env, service: string, port: int)
    requires 1 <= port <= 65535 && a.proxies == b.proxies == map[LONE := LoneRoot(service, port)]
    requires RootAllowed(a, "default") && RootAllowed(b, "default")
    requires Ensured(a.services, Name("default", service), port, a.externalNames).None?
    requires Ensured(b.services, Name("default", service), port, b.externalNames).Some?
    ensures TableOf(a) != TableOf(b)
  {
    var was := LoneHostHasRoute(a, service, port);
    var now := LoneHostHasRoute(b, service, port);
    assert was in multiset{was} && was !in multiset{now};
  }

  lemma LoneIsQuiet(s: Service, port: int)
    requires s.name.namespace == ""
    ensures !Inserted(LoneCache(s.name.name, port), ServiceObject(s)).1
  {
  }

  /** Every service without a namespace that resolves at some port can go unnoticed: with
      one root that names it, its insertion asks for no rebuild and changes the table. */
  lemma DefaultNamespaceIsMissed(set_: Settings, s: Service, port: int)
    requires s.name.namespace == "" && 1 <= port <= 65535
    requires Ensured(map[FiledUnder(s.name) := s], FiledUnder(s.name), port, set_.externalNames).Some?
    requires set_.rootNamespaces == [] || "default" in set_.rootNamespaces
    ensures var c := LoneCache(s.name.name, port);
            && !Inserted(c, ServiceObject(s)).1
            && TableOf(EnvOf(set_, Inserted(c, ServiceObject(s)).0)) != TableOf(EnvOf(set_, c))
  {
    var c := LoneCache(s.name.name, port);
    var before, after := EnvOf(set_, c), EnvOf(set_, Inserted(c, ServiceObject(s)).0);
    assert after.services == map[FiledUnder(s.name) := s];
    LoneIsQuiet(s, port);
    LoneTablesDiffer(before, after, s.name.name, port);
  }

  /** The run in which this happens: the root arrives and is published when the timer has
      fired, then the service arrives. */
  function UnnoticedRun(cfg: Config, now: nat, s: Service, port: int): (turns: seq<Turn>)
  {
    [Handle(Handler.Added(ProxyObject(LoneRoot(s.name.name, port), true))), Idle(now + cfg.delay),
     Refresh(now + cfg.delay), Handle(Handler.Added(ServiceObject(s)))]
  }

  /** One turn that is possible. */
  ghost predicate Turns(cfg: Config, set_: Settings, w: Whole, t: Turn, w': Whole)
  {
    Enabled(w.timer, StepOf(w, t)) && w' == Turned(cfg, set_, w, t)
  }

  lemma TurnThenRun(cfg: Config, set_: Settings, w: Whole, w': Whole, turns: seq<Turn>, k: nat)
    requires k < |turns| && Turns(cfg, set_, w, turns[k], w')
    ensures RunFrom(cfg, set_, w, turns[k..]) == RunFrom(cfg, set_, w', turns[k + 1..])
  {
    assert turns[k..][1..] == turns[k + 1..];
  }

  lemma RootIsPublished(cfg: Config, set_: Settings, now: nat, s: Service, port: int) returns (w: Whole)
    ensures w.contents == LoneCache(s.name.name, port) && w.timer.pending.None?
    ensures w.published == Some(TableOf(EnvOf(set_, w.contents)))
    ensures var turns := UnnoticedRun(cfg, now, s, port);
            RunFrom(cfg, set_, Begin(now), turns) == RunFrom(cfg, set_, w, turns[3..])
  {
    var turns := UnnoticedRun(cfg, now, s, port);
    var w1 := Turned(cfg, set_, Begin(now), turns[0]);
    TurnThenRun(cfg, set_, Begin(now), w1, turns, 0);
    var w2 := Turned(cfg, set_, w1, turns[1]);
    TurnThenRun(cfg, set_, w1, w2, turns, 1);
    w := Turned(cfg, set_, w2, turns[2]);
    TurnThenRun(cfg, set_, w2, w, turns, 2);
    assert turns[0..] == turns;
  }

  /** From the start of the handler: nothing is pending, and what is published is not the
      table of the cache. */
  lemma UnnoticedStaysStale(cfg: Config, set_: Settings, now: nat, s: Service, port: int)
    requires s.name.namespace == "" && 1 <= port <= 65535
    requires Ensured(map[FiledUnder(s.name) := s], FiledUnder(s.name), port, set_.externalNames).Some?
    requires set_.rootNamespaces == [] || "default" in set_.rootNamespaces
    ensures var w := RunFrom(cfg, set_, Begin(now), UnnoticedRun(cfg, now, s, port));
            && w.Some? && w.value.timer.pending.None? && w.value.published.Some?
            && w.value.published.value != TableOf(EnvOf(set_, w.value.contents))
  {
    var turns := UnnoticedRun(cfg, now, s, port);
    var w := RootIsPublished(cfg, set_, now, s, port);
    DefaultNamespaceIsMissed(set_, s, port);
    var w' := Turned(cfg, set_, w, turns[3]);
    TurnThenRun(cfg, set_, w, w', turns, 3);
    assert turns[4..] == [];
  }
}
