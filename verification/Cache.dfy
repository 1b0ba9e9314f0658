/** The object cache (internal/dag/cache.go), for HTTPProxies and services: which changes
    it keeps, and which of them it says need a new table. */
module Cache {
  import opened Kube
  import opened Proxies
  import opened Lookups

  /** An object that the API server reports. `classMatches`: its ingress class is ours. */
  datatype Object =
    | ProxyObject(proxy: Proxy, classMatches: bool)
    | ServiceObject(service: Service)
    | OtherObject

  datatype Contents = Contents(proxies: map<Name, Proxy>, services: map<Name, Service>)

  /** serviceTriggersRebuild: a proxy in the namespace of the service names it. */
  predicate Triggers(c: Contents, s: Service)
  {
    exists n :: n in c.proxies && c.proxies[n].name.namespace == s.name.namespace
                && References(c.proxies[n], s.name.name)
  }

  function Inserted(c: Contents, obj: Object): (r: (Contents, bool))
  {
    match obj
    case ProxyObject(p, classMatches) =>
      if classMatches then (c.(proxies := c.proxies[FiledUnder(p.name) := p]), true) else (c, false)
    case ServiceObject(s) =>
      var after := c.(services := c.services[FiledUnder(s.name) := s]);
      (after, Triggers(after, s))
    case OtherObject => (c, false)
  }

  function Removed(c: Contents, obj: Object): (r: (Contents, bool))
  {
    match obj
    case ProxyObject(p, _) => (c.(proxies := c.proxies - {FiledUnder(p.name)}), FiledUnder(p.name) in c.proxies)
    case ServiceObject(s) => (c.(services := c.services - {FiledUnder(s.name)}), FiledUnder(s.name) in c.services)
    case OtherObject => (c, false)
  }

  /** Every object is filed under its own name, with the default namespace if it has none. */
  ghost predicate IsFiled(c: Contents)
  {
    && (forall n :: n in c.proxies ==> FiledUnder(c.proxies[n].name) == n)
    && (forall n :: n in c.services ==> FiledUnder(c.services[n].name) == n)
  }

  lemma InsertKeepsFiled(c: Contents, obj: Object)
    requires IsFiled(c)
    ensures IsFiled(Inserted(c, obj).0)
  {
  }

  lemma RemoveKeepsFiled(c: Contents, obj: Object)
    requires IsFiled(c)
    ensures IsFiled(Removed(c, obj).0)
  {
  }

  class KubernetesCache {
    var httpproxies: map<Name, Proxy>
    var services: map<Name, Service>

    ghost function Now(): (c: Contents)
      reads this
    {
      Contents(httpproxies, services)
    }

    constructor ()
      ensures Now() == Contents(map[], map[]) && IsFiled(Now())
    {
      httpproxies, services := map[], map[];
    }

    method Insert(obj: Object) returns (triggers: bool)
      modifies this
      ensures (Now(), triggers) == Inserted(old(Now()), obj)
      ensures IsFiled(old(Now())) ==> IsFiled(Now())
    {
      match obj {
        case ProxyObject(p, classMatches) =>
          if !classMatches {
            return false;
          }
          httpproxies := httpproxies[FiledUnder(p.name) := p];
          return true;
        case ServiceObject(s) =>
          services := services[FiledUnder(s.name) := s];
          triggers := ServiceTriggersRebuild(s);
        case OtherObject =>
          return false;
      }
    }

    method Remove(obj: Object) returns (changed: bool)
      modifies this
      ensures (Now(), changed) == Removed(old(Now()), obj)
      ensures IsFiled(old(Now())) ==> IsFiled(Now())
    {
      match obj {
        case ProxyObject(p, _) =>
          var m := FiledUnder(p.name);
          changed := m in httpproxies;
          httpproxies := httpproxies - {m};
        case ServiceObject(s) =>
          var m := FiledUnder(s.name);
          changed := m in services;
          services := services - {m};
        case OtherObject =>
          changed := false;
      }
    }

    /** The scan over the proxies, in the order in which the map yields them. */
    method ServiceTriggersRebuild(service: Service) returns (b: bool)
      ensures b <==> Triggers(Now(), service)
    {
      var todo := httpproxies.Keys;
      while todo != {}
        invariant todo <= httpproxies.Keys
        invariant forall n :: n in httpproxies && n !in todo ==>
                    !(httpproxies[n].name.namespace ==
                      service.name.namespace && References(httpproxies[n], service.name.name))
        decreases todo
      {
        var n :| n in todo;
        var proxy := httpproxies[n];
        todo := todo - {n};
        if proxy.name.namespace != service.name.namespace {
          continue;
        }
        var names := ProxyNames(proxy, service.name.name);
        if names {
          return true;
        }
      }
      return false;
    }
  }

  method RefsName(refs: seq<ServiceRef>, s: string) returns (b: bool)
    ensures b <==> Names(refs, s)
  {
    for i := 0 to |refs|
      invariant forall k :: 0 <= k < i ==> refs[k].name != s
    {
      if refs[i].name == s {
        return true;
      }
    }
    return false;
  }

  method ProxyNames(proxy: Proxy, s: string) returns (b: bool)
    ensures b <==> References(proxy, s)
  {
    for j := 0 to |proxy.routes|
      invariant forall k :: 0 <= k < j ==> !Names(proxy.routes[k].services, s)
    {
      b := RefsName(proxy.routes[j].services, s);
      if b {
        return;
      }
    }
    if proxy.tcp.Some? {
      b := RefsName(proxy.tcp.value.services, s);
      return;
    }
    return false;
  }

  // ----- the filter agrees with the table ------------------------------------------------

  /** The processor's settings, which do not change while it runs. */
  datatype Settings = Settings(rootNamespaces: seq<string>, externalNames: bool, disablePermitInsecure: bool)

  function EnvOf(s: Settings, c: Contents): (env: Env)
  {
    Env(c.proxies, c.services, s.rootNamespaces, s.externalNames, s.disablePermitInsecure)
  }

  /** A proxy in the namespace of the key names the service with that key. */
  predicate NamedByProxy(c: Contents, key: Name)
  {
    exists n :: n in c.proxies && c.proxies[n].name.namespace == key.namespace && References(c.proxies[n], key.name)
  }

  /** The filter looks where the service will be found: it has a namespace, or no proxy of
      the default namespace, where it is filed, names it. */
  predicate Noticed(c: Contents, obj: Object)
  {
    obj.ServiceObject? && obj.service.name.namespace == "" ==> !NamedByProxy(c, FiledUnder(obj.service.name))
  }

  /** What an insertion without a rebuild can change: it leaves everything that a proxy names
      as it was if and only if the filter looked in the right place, or the same service
      was there already. */
  lemma QuietInsertKeepsLookupsWhen(set_: Settings, c: Contents, s: Service)
    requires !Inserted(c, ServiceObject(s)).1
    ensures SameLookups(EnvOf(set_, Inserted(c, ServiceObject(s)).0), EnvOf(set_, c)) <==>
            Noticed(c, ServiceObject(s)) || (FiledUnder(s.name) in c.services && c.services[FiledUnder(s.name)] == s)
  {
    var key, after := FiledUnder(s.name), Inserted(c, ServiceObject(s)).0;
    if NamedByProxy(c, key) {
      var n :| n in c.proxies && c.proxies[n].name.namespace == key.namespace && References(c.proxies[n], key.name);
      assert n in after.proxies && Name(c.proxies[n].name.namespace, key.name) == key;
    } else {
      forall n, name | n in c.proxies && References(c.proxies[n], name)
        ensures SameService(after.services, c.services, Name(c.proxies[n].name.namespace, name))
      {
      }
    }
  }

  /** An insertion for which the cache does not ask for a rebuild does not change the table,
      as long as the filter looks in the right place. */
  lemma QuietInsertKeepsTable(set_: Settings, c: Contents, obj: Object)
    requires !Inserted(c, obj).1 && Noticed(c, obj)
    ensures TableOf(EnvOf(set_, Inserted(c, obj).0)) == TableOf(EnvOf(set_, c))
  {
    if obj.ServiceObject? {
      QuietInsertKeepsLookupsWhen(set_, c, obj.service);
      TableIsSame(EnvOf(set_, Inserted(c, obj).0), EnvOf(set_, c));
    }
  }

  /** Nor does a removal that finds nothing. */
  lemma QuietRemoveKeepsContents(c: Contents, obj: Object)
    requires !Removed(c, obj).1
    ensures Removed(c, obj).0 == c
  {
    match obj
    case ProxyObject(p, _) => assert c.proxies - {FiledUnder(p.name)} == c.proxies;
    case ServiceObject(s) => assert c.services - {FiledUnder(s.name)} == c.services;
    case OtherObject =>
  }
}
