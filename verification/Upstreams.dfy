/** What a service reference comes to, told from the fields of the reference and of the service
    alone (internal/dag/accessors.go, getProtocol in internal/dag/httpproxy_processor.go). */
module Upstreams {
  import opened Text
  import opened Dag
  import opened Kube
  import opened Proxies
  import opened Compiler
  import opened Services

  /** The text is this number in decimal: digits, with no zero in front. */
  ghost predicate IsNumeral(s: string, n: nat)
  {
    && s != "" && (forall i :: 0 <= i < |s| ==> '0' <= s[i] <= '9')
    && (s[0] == '0' ==> s == "0") && NumberOf(s) == n
  }

  ghost predicate IsDecimal(s: string, n: int)
  {
    if n < 0 then s != "" && s[0] == '-' && IsNumeral(s[1..], -n) else IsNumeral(s, n)
  }

  /** Port k is the first of the service that has this number or this number as its name. */
  ghost predicate IsPortFor(svc: Service, port: int, k: nat)
  {
    && k < |svc.ports|
    && (svc.ports[k].port == port || IsDecimal(svc.ports[k].name, port))
    && forall i :: 0 <= i < k ==> svc.ports[i].port != port && !IsDecimal(svc.ports[i].name, port)
  }

  /** What the annotations say about a port: under its name, or else under its number. */
  ghost predicate IsAnnotated(svc: Service, p: ServicePort, protocol: string)
  {
    if p.name in svc.upstreamProtocols && svc.upstreamProtocols[p.name] != ""
    then protocol == svc.upstreamProtocols[p.name]
    else forall number :: IsDecimal(number, p.port) ==>
           protocol == if number in svc.upstreamProtocols then svc.upstreamProtocols[number] else ""
  }

  /** A service that stands for a name outside the cluster may be used: such services are
      enabled, and the name is not one of this machine. */
  predicate MayBeUsed(svc: Service, externalNames: bool)
  {
    svc.isExternalName && svc.externalName != "" ==>
      && externalNames
      && svc.externalName != "localhost" && svc.externalName != "localhost.localdomain"
      && svc.externalName != "local.projectsesame.io"
  }

  /** The upstream is port k of the service. */
  ghost predicate IsPortOf(u: Upstream, svc: Service, k: nat)
    requires k < |svc.ports|
  {
    && u.namespace == svc.name.namespace && u.name == svc.name.name
    && u.port == svc.ports[k].port && u.portName == svc.ports[k].name
    && IsAnnotated(svc, svc.ports[k], u.protocol)
    && u.externalName == if svc.isExternalName then svc.externalName else ""
  }

  ghost predicate ResolvesAt(svc: Service, port: int, k: nat, externalNames: bool, u: Upstream)
  {
    && IsPortFor(svc, port, k)
    && (svc.ports[k].protocol == "" || svc.ports[k].protocol == "TCP")
    && MayBeUsed(svc, externalNames) && IsPortOf(u, svc, k)
  }

  // ----- numbers ----------------------------------------------------------------------------------

  lemma ItoaIsNumeral(n: nat)
    ensures IsNumeral(Itoa(n), n)
  {
    ItoaIsDecimal(n);
    if n == 0 {
      assert Itoa(0) == "0";
    }
  }

  lemma {:induction false} NumberIsAtLeast(digits: string)
    requires forall i :: 0 <= i < |digits| ==> '0' <= digits[i] <= '9'
    ensures NumberOf(digits) >= 0 && (digits != "" && digits[0] != '0' ==> NumberOf(digits) > 0)
  {
    if digits != "" {
      var front := digits[..|digits| - 1];
      NumberIsAtLeast(front);
    }
  }

  /** There is one way to write a number. */
  lemma {:induction false} OneWayToWrite(a: string, b: string, n: nat)
    requires IsNumeral(a, n) && IsNumeral(b, n)
    ensures a == b
    decreases |a|
  {
    var restA, restB := a[..|a| - 1], b[..|b| - 1];
    assert a == restA + [a[|a| - 1]] && b == restB + [b[|b| - 1]];
    NumberIsAtLeast(restA);
    NumberIsAtLeast(restB);
    LastDigits(NumberOf(restA), a[|a| - 1], NumberOf(restB), b[|b| - 1]);
    if restA != "" && restB != "" {
      OneWayToWrite(restA, restB, NumberOf(restA));
    }
  }

  lemma LastDigits(x: int, c: char, y: int, d: char)
    requires x >= 0 && y >= 0 && '0' <= c <= '9' && '0' <= d <= '9'
    requires 10 * x + (c as int - '0' as int) == 10 * y + (d as int - '0' as int)
    ensures x == y && c == d
  {
  }

  lemma NumeralIs(s: string, n: nat)
    ensures IsNumeral(s, n) <==> s == Itoa(n)
  {
    ItoaIsNumeral(n);
    if IsNumeral(s, n) {
      OneWayToWrite(s, Itoa(n), n);
    }
  }

  lemma DecimalIs(s: string, n: int)
    ensures IsDecimal(s, n) <==> s == Decimal(n)
  {
    if n < 0 {
      assert Decimal(n)[1..] == Itoa(-n);
      if s != "" {
        NumeralIs(s[1..], -n);
        assert s == [s[0]] + s[1..];
      }
    } else {
      NumeralIs(s, n);
    }
  }

  // ----- services -----------------------------------------------------------------------------------

  lemma AnnotatedIs(svc: Service, p: ServicePort, protocol: string)
    ensures IsAnnotated(svc, p, protocol) <==> protocol == UpstreamProtocol(svc, p)
  {
    DecimalIs(Decimal(p.port), p.port);
    forall number
      ensures IsDecimal(number, p.port) <==> number == Decimal(p.port)
    {
      DecimalIs(number, p.port);
    }
  }

  lemma PortForIs(svc: Service, port: int, k: nat)
    ensures IsPortFor(svc, port, k) <==> FirstPort(svc, port, k)
  {
    forall i | 0 <= i < |svc.ports|
      ensures IsDecimal(svc.ports[i].name, port) <==> svc.ports[i].name == Decimal(port)
    {
      DecimalIs(svc.ports[i].name, port);
    }
  }

  lemma {:induction false} FindPortIsFirst(svc: Service, port: int, from: nat)
    requires from <= |svc.ports| && forall i :: 0 <= i < from ==> !PortMatches(svc.ports[i], port)
    ensures var found := FindPort(svc.ports[from..], port);
            forall p :: found == Some(p) <==>
                exists k: nat :: FirstPort(svc, port, k) && PortUsable(svc.ports[k]) && svc.ports[k] == p
    decreases |svc.ports| - from
  {
    if from < |svc.ports| {
      assert svc.ports[from..][0] == svc.ports[from] && svc.ports[from..][1..] == svc.ports[from + 1..];
      if PortMatches(svc.ports[from], port) {
        assert FirstPort(svc, port, from);
        assert forall k: nat :: FirstPort(svc, port, k) ==> k == from;
      } else {
        FindPortIsFirst(svc, port, from + 1);
      }
    }
  }

  /** A service and a port resolve exactly if the service is there, the first of its ports that
      has the number, or the number as its name, speaks TCP, and it may be used if it stands
      for an outside name; and the upstream is that port. */
  lemma ResolvesExactly(services: map<Name, Service>, meta: Name, port: int, externalNames: bool, u: Upstream)
    ensures Ensured(services, meta, port, externalNames) == Some(u) <==>
            meta in services && exists k: nat :: ResolvesAt(services[meta], port, k, externalNames, u)
  {
    if meta in services {
      var svc := services[meta];
      assert svc.ports[0..] == svc.ports;
      FindPortIsFirst(svc, port, 0);
      forall k: nat
        ensures IsPortFor(svc, port, k) <==> FirstPort(svc, port, k)
      {
        PortForIs(svc, port, k);
      }
      forall p, protocol
        ensures IsAnnotated(svc, p, protocol) <==> protocol == UpstreamProtocol(svc, p)
      {
        AnnotatedIs(svc, p, protocol);
      }
      ResolvesFrom(svc, port, externalNames, u, FindPort(svc.ports, port));
    }
  }

  lemma ResolvesFrom(svc: Service, port: int, externalNames: bool, u: Upstream, found: Option<ServicePort>)
    requires forall k: nat :: IsPortFor(svc, port, k) <==> FirstPort(svc, port, k)
    requires forall p, protocol :: IsAnnotated(svc, p, protocol) <==> protocol == UpstreamProtocol(svc, p)
    requires forall p :: found == Some(p) <==>
               exists k: nat :: FirstPort(svc, port, k) && PortUsable(svc.ports[k]) && svc.ports[k] == p
    ensures (&& found.Some? && ExternalNameAllowed(svc, externalNames)
             && u == Upstream(svc.name.namespace, svc.name.name, found.value.port, found.value.name,
                              UpstreamProtocol(svc, found.value), ExternalNameOf(svc))) <==>
            exists k: nat :: ResolvesAt(svc, port, k, externalNames, u)
  {
    if k: nat :| ResolvesAt(svc, port, k, externalNames, u) {
      assert FirstPort(svc, port, k) && PortUsable(svc.ports[k]);
      assert found == Some(svc.ports[k]);
    }
    if found.Some? {
      assert found == Some(found.value);
      var k: nat :| FirstPort(svc, port, k) && PortUsable(svc.ports[k]) && svc.ports[k] == found.value;
      assert IsPortFor(svc, port, k);
      assert IsPortOf(u, svc, k) <==>
             u == Upstream(svc.name.namespace, svc.name.name, found.value.port, found.value.name,
                           UpstreamProtocol(svc, found.value), ExternalNameOf(svc));
      if ExternalNameAllowed(svc, externalNames) && IsPortOf(u, svc, k) {
        assert ResolvesAt(svc, port, k, externalNames, u);
      }
    }
  }

  // ----- references ------------------------------------------------------------------------------------

  /** The reference gives this cluster: its service resolves, in the namespace of the proxy; the
      protocol is the one the reference names, if that is known, or else that of the service;
      and weight and policy are those of the reference. */
  ghost predicate Gives(env: Env, ns: string, ref: ServiceRef, c: Cluster)
  {
    && Name(ns, ref.name) in env.services
    && (exists k: nat :: ResolvesAt(env.services[Name(ns, ref.name)], ref.port, k, env.externalNames, c.upstream))
    && (ref.protocol.Some? ==>
          c.protocol == ref.protocol.value && (c.protocol == "h2c" || c.protocol == "h2" || c.protocol == "tls"))
    && (ref.protocol.None? ==> c.protocol == c.upstream.protocol)
    && c.weight == ref.weight && c.policy == ref.policy
  }

  /** What a reference gives, in terms of the compiler's functions. */
  lemma GivesIs(env: Env, ns: string, ref: ServiceRef, c: Cluster)
    ensures Gives(env, ns, ref, c) <==>
            && UpstreamOf(env, ns, ref) == Some(c.upstream) && ProtocolOf(ref, c.upstream) == Some(c.protocol)
            && c.weight == ref.weight && c.policy == ref.policy
  {
    ResolvesExactly(env.services, Name(ns, ref.name), ref.port, env.externalNames, c.upstream);
  }

  /** A service of a route is fine exactly if its port is a port number, it gives a cluster, and the
      carried checks pass; and then that is its cluster. */
  lemma RefIsFineWhen(env: Env, ns: string, ref: ServiceRef)
    ensures RefOk(env, ns, ref) <==>
            && 1 <= ref.port <= 65535 && ref.check.None?
            && exists c :: Gives(env, ns, ref, c) && (c.protocol == "tls" || c.protocol == "h2" ==> ref.tlsCheck.None?)
    ensures RefOk(env, ns, ref) ==> Gives(env, ns, ref, ClusterOf(env, ns, ref))
    ensures forall c :: RefOk(env, ns, ref) && Gives(env, ns, ref, c) ==> c == ClusterOf(env, ns, ref)
  {
    forall c
      ensures Gives(env, ns, ref, c) <==>
              && UpstreamOf(env, ns, ref) == Some(c.upstream) && ProtocolOf(ref, c.upstream) == Some(c.protocol)
              && c.weight == ref.weight && c.policy == ref.policy
    {
      GivesIs(env, ns, ref, c);
    }
    var u := UpstreamOf(env, ns, ref);
    if u.Some? && ProtocolOf(ref, u.value).Some? {
      assert Gives(env, ns, ref, Cluster(u.value, ProtocolOf(ref, u.value).value, ref.weight, ref.policy));
    }
  }

  /** It dangles exactly if its port is a port number and nothing resolves. */
  lemma RefDanglesWhen(env: Env, ns: string, ref: ServiceRef)
    ensures Dangling(env, ns, ref) <==>
            && 1 <= ref.port <= 65535
            && (Name(ns, ref.name) in env.services ==>
                  forall k: nat, u :: !ResolvesAt(env.services[Name(ns, ref.name)], ref.port, k, env.externalNames, u))
  {
    var meta, u := Name(ns, ref.name), UpstreamOf(env, ns, ref);
    if u.Some? {
      ResolvesExactly(env.services, meta, ref.port, env.externalNames, u.value);
    }
    if meta in env.services {
      forall k: nat, v | ResolvesAt(env.services[meta], ref.port, k, env.externalNames, v)
        ensures u == Some(v)
      {
        ResolvesExactly(env.services, meta, ref.port, env.externalNames, v);
      }
    }
  }
}
