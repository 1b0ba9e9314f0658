/** The TCP proxy of a host, told from the fields of the objects alone
    (processHTTPProxyTCPProxy in internal/dag/httpproxy_processor.go). */
module TCPChains {
  import opened Text
  import opened Dag
  import opened Kube
  import opened Proxies
  import opened Compiler
  import opened Upstreams
  import opened Edges

  // ----- services ---------------------------------------------------------------------------------

  /** These are the clusters of these services, one each, in order. */
  ghost predicate AreTCPClusters(env: Env, ns: string, refs: seq<ServiceRef>, cs: seq<Cluster>)
  {
    |cs| == |refs| && forall i :: 0 <= i < |refs| ==> Gives(env, ns, refs[i], cs[i])
  }

  lemma AreTCPClustersStep(env: Env, ns: string, refs: seq<ServiceRef>, cs: seq<Cluster>)
    requires refs != [] && cs != []
    ensures AreTCPClusters(env, ns, refs, cs) <==>
            Gives(env, ns, refs[0], cs[0]) && AreTCPClusters(env, ns, refs[1..], cs[1..])
  {
    var rest, more := refs[1..], cs[1..];
    assert forall i :: 0 <= i < |rest| ==> rest[i] == refs[i + 1];
    assert forall i :: 0 <= i < |more| ==> more[i] == cs[i + 1];
    if AreTCPClusters(env, ns, rest, more) && Gives(env, ns, refs[0], cs[0]) {
      forall i | 0 <= i < |refs|
        ensures Gives(env, ns, refs[i], cs[i])
      {
        assert i > 0 ==> Gives(env, ns, rest[i - 1], more[i - 1]);
      }
    }
  }

  lemma {:induction false} TCPClustersGrow(env: Env, ns: string, refs: seq<ServiceRef>, acc: TCPClusters)
    ensures acc.clusters <= WithTCPServices(env, ns, refs, acc).clusters
    ensures acc.failure.Some? ==> WithTCPServices(env, ns, refs, acc) == acc
    decreases |refs|
  {
    if refs != [] && acc.failure.None? {
      TCPClustersGrow(env, ns, refs[1..], WithTCPService(env, ns, refs[0], acc));
    }
  }

  /** One service: it gives one cluster at most, and the loop adds that. */
  lemma TCPServiceStep(env: Env, ns: string, ref: ServiceRef, before: seq<Cluster>, c: Cluster)
    ensures WithTCPService(env, ns, ref, TCPClusters(before, None)) == TCPClusters(before + [c], None) <==>
            Gives(env, ns, ref, c)
    ensures var next := WithTCPService(env, ns, ref, TCPClusters(before, None));
            next.failure.None? ==> |next.clusters| == |before| + 1 && before <= next.clusters
  {
    GivesIs(env, ns, ref, c);
    var next := WithTCPService(env, ns, ref, TCPClusters(before, None));
    if next.failure.None? {
      assert next.clusters[|before|] == (before + [next.clusters[|before|]])[|before|];
      assert (before + [c])[|before|] == c;
    }
  }

  /** The services of a TCP stanza come to these clusters exactly if each service, in order, gives
      its own; so all of them must resolve. */
  lemma {:induction false} TCPServicesResolve(env: Env, ns: string, refs: seq<ServiceRef>, before: seq<Cluster>,
                                              cs: seq<Cluster>)
    ensures WithTCPServices(env, ns, refs, TCPClusters(before, None)) == TCPClusters(before + cs, None) <==>
            AreTCPClusters(env, ns, refs, cs)
    decreases |refs|
  {
    var acc := TCPClusters(before, None);
    var out := WithTCPServices(env, ns, refs, acc);
    if refs == [] {
      assert before + [] == before;
    } else {
      var next := WithTCPService(env, ns, refs[0], acc);
      TCPClustersGrow(env, ns, refs[1..], next);
      if cs == [] {
        assert before + cs == before;
        TCPServiceStep(env, ns, refs[0], before, Cluster(Upstream("", "", 0, "", "", ""), "", 0, 0));
      } else {
        TCPServiceStep(env, ns, refs[0], before, cs[0]);
        AreTCPClustersStep(env, ns, refs, cs);
        TCPServicesResolve(env, ns, refs[1..], before + [cs[0]], cs[1..]);
        assert before + [cs[0]] + cs[1..] == before + cs;
        if next.failure.None? && out.clusters == before + cs {
          assert next.clusters == before + [cs[0]];
        }
      }
    }
  }

  // ----- chains ------------------------------------------------------------------------------------

  /** A chain of TCP includes from a proxy, without repetition and away from the path. */
  ghost predicate IsTCPChain(env: Env, p: seq<Name>, from: Name, visited: seq<Name>)
  {
    && p != [] && p[0] == from
    && (forall i :: 0 <= i < |p| ==> p[i] in env.proxies && p[i] !in visited)
    && (forall i, j :: 0 <= i < j < |p| ==> p[i] != p[j])
    && (forall i, j :: 0 <= i < j < |p| && j == i + 1 ==> TCPLeads(env, p[i], p[j]))
  }

  /** Proxy n has a stanza with services and no include, and these are their clusters. */
  ghost predicate ServesAt(env: Env, n: Name, cs: seq<Cluster>)
    requires n in env.proxies
  {
    var p := env.proxies[n];
    && p.tcp.Some? && p.tcp.value.services != []
    && p.tcp.value.incl.None? && p.tcp.value.inclDeprecated.None?
    && AreTCPClusters(env, p.name.namespace, p.tcp.value.services, cs)
  }

  /** The end of a chain: a proxy with these clusters, or, if there are none, without a stanza. */
  ghost predicate EndsWith(env: Env, n: Name, cs: Option<seq<Cluster>>)
    requires n in env.proxies
  {
    match cs
    case None => env.proxies[n].tcp.None?
    case Some(clusters) => ServesAt(env, n, clusters)
  }

  lemma EndsWhen(env: Env, n: Name, cs: Option<seq<Cluster>>)
    requires n in env.proxies
    ensures EndsWith(env, n, cs) <==>
            TCPStepOf(env, env.proxies[n]) == match cs case None => TCPNothing case Some(clusters) => TCPServe(clusters)
  {
    var p := env.proxies[n];
    if p.tcp.Some? && cs.Some? {
      TCPServicesResolve(env, p.name.namespace, p.tcp.value.services, [], cs.value);
      assert [] + cs.value == cs.value;
    }
  }

  lemma ChainCons(env: Env, name: Name, rest: seq<Name>, visited: seq<Name>)
    requires name in env.proxies && name !in visited && rest != [] && TCPLeads(env, name, rest[0])
    requires IsTCPChain(env, rest, rest[0], visited + [name])
    ensures IsTCPChain(env, [name] + rest, name, visited)
  {
    var p := [name] + rest;
    assert forall i :: 1 <= i < |p| ==> p[i] == rest[i - 1];
    forall i, j | 0 <= i < j < |p| && j == i + 1
      ensures TCPLeads(env, p[i], p[j])
    {
      assert i > 0 ==> TCPLeads(env, rest[i - 1], rest[j - 1]);
    }
  }

  lemma ChainTail(env: Env, p: seq<Name>, visited: seq<Name>)
    requires |p| > 1 && IsTCPChain(env, p, p[0], visited)
    ensures TCPLeads(env, p[0], p[1]) && IsTCPChain(env, p[1..], p[1], visited + [p[0]])
  {
    var rest := p[1..];
    assert forall i :: 0 <= i < |rest| ==> rest[i] == p[i + 1];
    forall i, j | 0 <= i < j < |rest| && j == i + 1
      ensures TCPLeads(env, rest[i], rest[j])
    {
      var k, l := i + 1, j + 1;
      assert TCPLeads(env, p[k], p[l]);
    }
  }

  lemma {:induction false} WalkHasChain(env: Env, name: Name, visited: seq<Name>, cs: Option<seq<Cluster>>)
    returns (p: seq<Name>)
    requires name in env.proxies && name !in visited && TCPWalk(env, name, visited) == TCPResult(true, cs)
    ensures IsTCPChain(env, p, name, visited) && EndsWith(env, p[|p| - 1], cs)
    decreases env.proxies.Keys - Seen(visited)
  {
    var step := TCPStepOf(env, env.proxies[name]);
    EndsWhen(env, name, cs);
    if step.TCPFollow? {
      SeenGrows(env.proxies.Keys, visited, name);
      TCPFollowWhen(env, name, step.target);
      var rest := WalkHasChain(env, step.target, visited + [name], cs);
      ChainCons(env, name, rest, visited);
      p := [name] + rest;
    } else {
      p := [name];
    }
  }

  lemma {:induction false} ChainIsWalked(env: Env, p: seq<Name>, visited: seq<Name>, cs: Option<seq<Cluster>>)
    requires p != [] && IsTCPChain(env, p, p[0], visited) && EndsWith(env, p[|p| - 1], cs)
    ensures TCPWalk(env, p[0], visited) == TCPResult(true, cs)
    decreases |p|
  {
    if |p| > 1 {
      SeenGrows(env.proxies.Keys, visited, p[0]);
      ChainTail(env, p, visited);
      TCPFollowWhen(env, p[0], p[1]);
      ChainIsWalked(env, p[1..], visited + [p[0]], cs);
    } else {
      EndsWhen(env, p[0], cs);
    }
  }

  /** The walk over TCP includes succeeds exactly if a chain of them without repetition leads from
      the proxy to one that has services, all of which resolve, or no stanza at all; and what
      it finds are the clusters of those services, or none. */
  lemma TCPMeaning(env: Env, name: Name, visited: seq<Name>, cs: Option<seq<Cluster>>)
    requires name in env.proxies && name !in visited
    ensures TCPWalk(env, name, visited) == TCPResult(true, cs) <==>
            exists p :: IsTCPChain(env, p, name, visited) && EndsWith(env, p[|p| - 1], cs)
  {
    if TCPWalk(env, name, visited) == TCPResult(true, cs) {
      var p := WalkHasChain(env, name, visited, cs);
    }
    if p :| IsTCPChain(env, p, name, visited) && EndsWith(env, p[|p| - 1], cs) {
      ChainIsWalked(env, p, visited, cs);
    }
  }
}
