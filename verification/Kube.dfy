/** Kubernetes objects, as far as the table depends on them: namespaced names and
    services, with the lookups of internal/dag/cache.go and internal/dag/accessors.go. */
module Kube {
  import opened Text
  import opened Dag

  datatype Name = Name(namespace: string, name: string)

  datatype ServicePort = ServicePort(port: int, name: string, protocol: string)

  /** `upstreamProtocols` is what the protocol annotations say, by port name or number. */
  datatype Service = Service(
    name: Name,
    ports: seq<ServicePort>,
    isExternalName: bool,
    externalName: string,
    upstreamProtocols: map<string, string>)

  /** strconv.Itoa, negative numbers included. */
  function Decimal(n: int): (s: string)
  {
    if n < 0 then "-" + Itoa(-n) else Itoa(n)
  }

  predicate PortMatches(p: ServicePort, port: int)
  {
    p.port == port || Decimal(port) == p.name
  }

  predicate PortUsable(p: ServicePort)
  {
    p.protocol == "" || p.protocol == "TCP"
  }

  /** The first port that matches by number or by name decides: it is found if it speaks
      TCP, and otherwise nothing is. */
  ghost predicate FirstPort(svc: Service, port: int, k: nat)
  {
    && k < |svc.ports| && PortMatches(svc.ports[k], port)
    && forall i :: 0 <= i < k ==> !PortMatches(svc.ports[i], port)
  }

  function FindPort(ports: seq<ServicePort>, port: int): (p: Option<ServicePort>)
  {
    if ports == [] then None
    else if PortMatches(ports[0], port) then (if PortUsable(ports[0]) then Some(ports[0]) else None)
    else FindPort(ports[1..], port)
  }

  function Looked(services: map<Name, Service>, meta: Name, port: int): (found: Option<(Service, ServicePort)>)
  {
    if meta !in services then None
    else
      var p := FindPort(services[meta].ports, port);
      if p.None? then None else Some((services[meta], p.value))
  }

  method LookupService(services: map<Name, Service>, meta: Name, port: int)
    returns (found: Option<(Service, ServicePort)>)
    ensures found == Looked(services, meta, port)
    ensures found.Some? ==>
              && meta in services && found.value.0 == services[meta]
              && exists k: nat :: FirstPort(services[meta], port, k) && services[meta].ports[k] == found.value.1
                                  && PortUsable(found.value.1)
    ensures found.None? && meta in services ==> forall k: nat :: FirstPort(services[meta], port, k) ==>
              !PortUsable(services[meta].ports[k])
  {
    if meta !in services {
      return None;
    }
    var svc := services[meta];
    for i := 0 to |svc.ports|
      invariant forall k :: 0 <= k < i ==> !PortMatches(svc.ports[k], port)
      invariant FindPort(svc.ports, port) == FindPort(svc.ports[i..], port)
    {
      var p := svc.ports[i];
      assert svc.ports[i..][1..] == svc.ports[i + 1..];
      if PortMatches(p, port) {
        assert FirstPort(svc, port, i);
        if PortUsable(p) {
          return Some((svc, p));
        }
        return None;
      }
    }
    return None;
  }

  function ExternalNameOf(svc: Service): (s: string)
  {
    if svc.isExternalName then svc.externalName else ""
  }

  predicate ExternalNameAllowed(svc: Service, enabled: bool)
  {
    var en := ExternalNameOf(svc);
    en == "" || (enabled && en !in {"localhost", "localhost.localdomain", "local.projectsesame.io"})
  }

  function UpstreamProtocol(svc: Service, p: ServicePort): (s: string)
  {
    var byName := if p.name in svc.upstreamProtocols then svc.upstreamProtocols[p.name] else "";
    var number := Decimal(p.port);
    if byName != "" then byName
    else if number in svc.upstreamProtocols then svc.upstreamProtocols[number] else ""
  }

  /** EnsureService: the service and port as the table refers to them. */
  function Ensured(services: map<Name, Service>, meta: Name, port: int, externalNames: bool): (u: Option<Upstream>)
  {
    var found := Looked(services, meta, port);
    if found.None? then None
    else
      var (svc, p) := found.value;
      if !ExternalNameAllowed(svc, externalNames) then None
      else Some(Upstream(svc.name.namespace, svc.name.name, p.port, p.name, UpstreamProtocol(svc, p),
                         ExternalNameOf(svc)))
  }

  /** Port k of the service is the one that a reference to a port means, and it may be used. */
  ghost predicate Serves(svc: Service, port: int, k: nat, externalNames: bool)
  {
    FirstPort(svc, port, k) && PortUsable(svc.ports[k]) && ExternalNameAllowed(svc, externalNames)
  }

  /** The upstream is that service at that port, with the protocol its annotations give. */
  predicate IsUpstream(u: Upstream, svc: Service, p: ServicePort)
  {
    && Name(u.namespace, u.name) == svc.name && u.port == p.port && u.portName == p.name
    && u.protocol == UpstreamProtocol(svc, p) && u.externalName == ExternalNameOf(svc)
  }

  /** There is an upstream exactly when the service is there, the first of its ports that
      matches by number or by name speaks TCP, and its external name is allowed; and it is
      that port of that service. */
  method EnsureService(services: map<Name, Service>, meta: Name, port: int, externalNames: bool)
    returns (u: Option<Upstream>)
    ensures u == Ensured(services, meta, port, externalNames)
    ensures u.Some? <==> meta in services && exists k: nat :: Serves(services[meta], port, k, externalNames)
    ensures forall k: nat :: u.Some? && Serves(services[meta], port, k, externalNames) ==>
              IsUpstream(u.value, services[meta], services[meta].ports[k])
  {
    var found := LookupService(services, meta, port);
    if found.None? {
      return None;
    }
    var (svc, p) := found.value;
    if !ExternalNameAllowed(svc, externalNames) {
      return None;
    }
    ghost var k: nat :| FirstPort(svc, port, k) && svc.ports[k] == p;
    assert Serves(svc, port, k, externalNames);
    return Some(Upstream(svc.name.namespace, svc.name.name, p.port, p.name, UpstreamProtocol(svc, p),
                         ExternalNameOf(svc)));
  }
}
