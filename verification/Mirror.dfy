/** The object cache mirrors the cluster over every run of the event handler, so what is published at
    rest is the table of the objects that exist (internal/dag/cache.go, internal/sesame/handler.go). */
module Mirror {
  import opened Kube
  import opened Proxies
  import opened Lookups
  import opened Cache
  import opened Holdoff
  import opened Handler

  /** The objects of a cluster; of each proxy also whether its ingress class is ours. */
  datatype World = World(proxies: map<Name, (Proxy, bool)>, services: map<Name, Service>)

  const NOTHING := World(map[], map[])

  /** An object without a namespace is in the default one. */
  function KnownAs(n: Name): (key: Name)
  {
    Name(if n.namespace != "" then n.namespace else "default", n.name)
  }

  predicate Exists(w: World, obj: Object)
  {
    match obj
    case ProxyObject(p, ours) => KnownAs(p.name) in w.proxies && w.proxies[KnownAs(p.name)] == (p, ours)
    case ServiceObject(s) => KnownAs(s.name) in w.services && w.services[KnownAs(s.name)] == s
    case OtherObject => true
  }

  /** No object of that kind and name exists. */
  predicate IsNew(w: World, obj: Object)
  {
    match obj
    case ProxyObject(p, _) => KnownAs(p.name) !in w.proxies
    case ServiceObject(s) => KnownAs(s.name) !in w.services
    case OtherObject => true
  }

  predicate SameIdentity(a: Object, b: Object)
  {
    match a
    case ProxyObject(p, _) => b.ProxyObject? && KnownAs(p.name) == KnownAs(b.proxy.name)
    case ServiceObject(s) => b.ServiceObject? && KnownAs(s.name) == KnownAs(b.service.name)
    case OtherObject => b.OtherObject?
  }

  function With(w: World, obj: Object): (w': World)
  {
    match obj
    case ProxyObject(p, ours) => w.(proxies := w.proxies[KnownAs(p.name) := (p, ours)])
    case ServiceObject(s) => w.(services := w.services[KnownAs(s.name) := s])
    case OtherObject => w
  }

  function Without(w: World, obj: Object): (w': World)
  {
    match obj
    case ProxyObject(p, _) => w.(proxies := w.proxies - {KnownAs(p.name)})
    case ServiceObject(s) => w.(services := w.services - {KnownAs(s.name)})
    case OtherObject => w
  }

  /** The event reports a change of the cluster: something is created, changed or deleted, where an
      update that touches the status only changes nothing that matters here. */
  predicate Reports(w: World, e: Event, w': World)
  {
    match e
    case Added(obj) => IsNew(w, obj) && w' == With(w, obj)
    case Updated(oldObj, newObj, onlyStatus) =>
      && Exists(w, oldObj) && SameIdentity(oldObj, newObj) && w' == With(w, newObj)
      && (onlyStatus ==> newObj == oldObj)
    case Deleted(obj) => Exists(w, obj) && w' == Without(w, obj)
    case Elected(_) => w' == w
    case Unknown => w' == w
  }

  /** The proxies of our class. */
  function Ours(w: World): (proxies: map<Name, Proxy>)
  {
    map n | n in w.proxies && w.proxies[n].1 :: w.proxies[n].0
  }

  /** The cache holds the proxies of our class, and the services. */
  predicate Mirrors(c: Contents, w: World)
  {
    c.proxies == Ours(w) && c.services == w.services
  }

  lemma InsertMirrors(c: Contents, w: World, obj: Object)
    requires Mirrors(c, w) && IsNew(w, obj)
    ensures Mirrors(Inserted(c, obj).0, With(w, obj))
  {
  }

  lemma RemoveMirrors(c: Contents, w: World, obj: Object)
    requires Mirrors(c, w) && Exists(w, obj)
    ensures Mirrors(Removed(c, obj).0, Without(w, obj)) && IsNew(Without(w, obj), obj)
  {
    if obj.ProxyObject? {
      var key := KnownAs(obj.proxy.name);
      assert Ours(Without(w, obj)) == Ours(w) - {key};
    }
  }

  lemma ReplaceIs(w: World, a: Object, b: Object)
    requires Exists(w, a) && SameIdentity(a, b)
    ensures With(Without(w, a), b) == With(w, b) && IsNew(Without(w, a), b)
  {
    match a
    case ProxyObject(p, _) => assert (w.proxies - {KnownAs(p.name)})[KnownAs(p.name) := (b.proxy, b.classMatches)] ==
                                     w.proxies[KnownAs(p.name) := (b.proxy, b.classMatches)];
    case ServiceObject(s) => assert (w.services - {KnownAs(s.name)})[KnownAs(s.name) := b.service] ==
                                    w.services[KnownAs(s.name) := b.service];
    case OtherObject =>
  }

  lemma SameAgain(w: World, obj: Object)
    requires Exists(w, obj)
    ensures With(w, obj) == w
  {
    match obj
    case ProxyObject(p, ours) => assert w.proxies[KnownAs(p.name) := (p, ours)] == w.proxies;
    case ServiceObject(s) => assert w.services[KnownAs(s.name) := s] == w.services;
    case OtherObject =>
  }

  lemma EventMirrors(c: Contents, w: World, e: Event, w': World)
    requires Mirrors(c, w) && Reports(w, e, w')
    ensures Mirrors(Applied(c, e).0, w')
  {
    match e
    case Added(obj) => InsertMirrors(c, w, obj);
    case Updated(oldObj, newObj, onlyStatus) =>
      if onlyStatus {
        SameAgain(w, oldObj);
      } else {
        RemoveMirrors(c, w, oldObj);
        ReplaceIs(w, oldObj, newObj);
        InsertMirrors(Removed(c, oldObj).0, Without(w, oldObj), newObj);
      }
    case Deleted(obj) => RemoveMirrors(c, w, obj);
    case Elected(_) =>
    case Unknown =>
  }

  /** The turns of a run report what happens to a cluster, state by state. */
  ghost predicate Tells(turns: seq<Turn>, ws: seq<World>)
  {
    && |ws| == |turns| + 1
    && forall i, j :: 0 <= i < j < |ws| && j == i + 1 ==>
         if turns[i].Handle? then Reports(ws[i], turns[i].event, ws[j]) else ws[j] == ws[i]
  }

  lemma TellsTail(turns: seq<Turn>, ws: seq<World>)
    requires Tells(turns, ws) && turns != []
    ensures Tells(turns[1..], ws[1..])
    ensures if turns[0].Handle? then Reports(ws[0], turns[0].event, ws[1]) else ws[1] == ws[0]
  {
    var ts, vs := turns[1..], ws[1..];
    forall i, j | 0 <= i < j < |vs| && j == i + 1
      ensures if ts[i].Handle? then Reports(vs[i], ts[i].event, vs[j]) else vs[j] == vs[i]
    {
      var k, l := i + 1, j + 1;
      assert if turns[k].Handle? then Reports(ws[k], turns[k].event, ws[l]) else ws[l] == ws[k];
    }
  }

  /** Over every run whose events report the cluster truly, the cache mirrors it. */
  lemma {:induction false} RunMirrors(cfg: Config, set_: Settings, w: Whole, turns: seq<Turn>, ws: seq<World>)
    requires RunFrom(cfg, set_, w, turns).Some? && Tells(turns, ws) && Mirrors(w.contents, ws[0])
    ensures Mirrors(RunFrom(cfg, set_, w, turns).value.contents, ws[|turns|])
    decreases |turns|
  {
    if turns != [] {
      TellsTail(turns, ws);
      if turns[0].Handle? {
        EventMirrors(w.contents, ws[0], turns[0].event, ws[1]);
      }
      RunMirrors(cfg, set_, Turned(cfg, set_, w, turns[0]), turns[1..], ws[1..]);
    }
  }

  /** End to end: from an empty cluster, after the first rebuild and with none pending, what is
      published is the table of exactly the objects that exist, proxies of our class only. */
  lemma AtRestTheWorldIsPublished(cfg: Config, set_: Settings, now: nat, turns: seq<Turn>, ws: seq<World>)
    requires RunFrom(cfg, set_, Begin(now), turns).Some? && RunOk(cfg, set_, Begin(now), turns)
    requires Tells(turns, ws) && ws[0] == NOTHING
    ensures var w, world := RunFrom(cfg, set_, Begin(now), turns).value, ws[|turns|];
            w.published.Some? && w.timer.pending.None? ==>
              w.published.value == TableOf(Env(Ours(world), world.services, set_.rootNamespaces, set_.externalNames,
                                               set_.disablePermitInsecure))
  {
    QuiescentIsConsistent(cfg, set_, now, turns);
    assert Ours(NOTHING) == map[];
    RunMirrors(cfg, set_, Begin(now), turns, ws);
  }

  // ----- what asks for a rebuild ------------------------------------------------------------------------

  /** A proxy in the cache is in the namespace and has a route or a TCP stanza with a service of
      that name. */
  ghost predicate IsNamed(c: Contents, namespace: string, name: string)
  {
    exists n :: n in c.proxies && c.proxies[n].name.namespace == namespace
                && (|| (exists j, i :: 0 <= j < |c.proxies[n].routes| && 0 <= i < |c.proxies[n].routes[j].services|
                                       && c.proxies[n].routes[j].services[i].name == name)
                    || (c.proxies[n].tcp.Some? && exists i :: 0 <= i < |c.proxies[n].tcp.value.services|
                                                              && c.proxies[n].tcp.value.services[i].name == name))
  }

  lemma NamedIs(c: Contents, s: Service)
    ensures Triggers(c, s) <==> IsNamed(c, s.name.namespace, s.name.name)
  {
    forall n | n in c.proxies
      ensures References(c.proxies[n], s.name.name) <==>
              || (exists j, i :: 0 <= j < |c.proxies[n].routes| && 0 <= i < |c.proxies[n].routes[j].services|
                                 && c.proxies[n].routes[j].services[i].name == s.name.name)
              || (c.proxies[n].tcp.Some? && exists i :: 0 <= i < |c.proxies[n].tcp.value.services|
                                                        && c.proxies[n].tcp.value.services[i].name == s.name.name)
    {
      var p := c.proxies[n];
      if j :| 0 <= j < |p.routes| && Names(p.routes[j].services, s.name.name) {
        var i :| 0 <= i < |p.routes[j].services| && p.routes[j].services[i].name == s.name.name;
      }
    }
  }

  /** Inserting an object asks for a rebuild: it is a proxy of our class, or a service that a proxy
      of its namespace names. */
  ghost predicate InsertAsks(c: Contents, obj: Object)
  {
    match obj
    case ProxyObject(_, ours) => ours
    case ServiceObject(s) => IsNamed(c, s.name.namespace, s.name.name)
    case OtherObject => false
  }

  /** Removing it does: something is there under its name. */
  predicate RemoveAsks(c: Contents, obj: Object)
  {
    match obj
    case ProxyObject(p, _) => KnownAs(p.name) in c.proxies
    case ServiceObject(s) => KnownAs(s.name) in c.services
    case OtherObject => false
  }

  lemma ObjectAsksWhen(c: Contents, obj: Object)
    ensures Inserted(c, obj).1 <==> InsertAsks(c, obj)
    ensures Removed(c, obj).1 <==> RemoveAsks(c, obj)
  {
    if obj.ServiceObject? {
      var after := Inserted(c, obj).0;
      NamedIs(after, obj.service);
      assert IsNamed(after, obj.service.name.namespace, obj.service.name.name) <==>
             IsNamed(c, obj.service.name.namespace, obj.service.name.name);
    }
  }

  /** An event asks for a rebuild exactly if what it inserts or removes does, where an update that
      touches the status only does neither, or if it is an election that says so. */
  lemma AsksWhen(c: Contents, e: Event)
    ensures Applied(c, e).1 <==>
            match e
            case Added(obj) => InsertAsks(c, obj)
            case Updated(oldObj, newObj, onlyStatus) =>
              !onlyStatus && (RemoveAsks(c, oldObj) || InsertAsks(Removed(c, oldObj).0, newObj))
            case Deleted(obj) => RemoveAsks(c, obj)
            case Elected(rebuild) => rebuild
            case Unknown => false
  {
    match e
    case Added(obj) => ObjectAsksWhen(c, obj);
    case Updated(oldObj, newObj, _) =>
      ObjectAsksWhen(c, oldObj);
      ObjectAsksWhen(Removed(c, oldObj).0, newObj);
    case Deleted(obj) => ObjectAsksWhen(c, obj);
    case Elected(_) =>
    case Unknown =>
  }
}
