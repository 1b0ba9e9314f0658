/** The services of a route and the clusters they become
    (internal/dag/httpproxy_processor.go). */
module Services {
  import opened Text
  import opened Dag
  import opened Proxies
  import opened Compiler

  /** Nothing is wrong with a service reference. */
  ghost predicate RefOk(env: Env, ns: string, ref: ServiceRef)
  {
    && 1 <= ref.port <= 65535
    && var u := UpstreamOf(env, ns, ref);
       && u.Some? && ProtocolOf(ref, u.value).Some?
       && (ProtocolOf(ref, u.value).value in {"tls", "h2"} ==> ref.tlsCheck.None?)
       && ref.check.None?
  }

  /** The service is not there: reported, but the route is kept without it. */
  ghost predicate Dangling(env: Env, ns: string, ref: ServiceRef)
  {
    1 <= ref.port <= 65535 && UpstreamOf(env, ns, ref).None?
  }

  ghost function ClusterOf(env: Env, ns: string, ref: ServiceRef): (c: Cluster)
    requires RefOk(env, ns, ref)
  {
    var u := UpstreamOf(env, ns, ref).value;
    Cluster(u, ProtocolOf(ref, u).value, ref.weight, ref.policy)
  }

  /** The cluster of a service that is there, if it is of the kind asked for. */
  ghost function ClusterIn(env: Env, ns: string, ref: ServiceRef, mirrors: bool): (cs: seq<Cluster>)
  {
    if RefOk(env, ns, ref) && ref.mirror == mirrors then [ClusterOf(env, ns, ref)] else []
  }

  /** The clusters of the services that are there, of the mirrors or of the others, in order. */
  ghost function ClustersOf(env: Env, ns: string, refs: seq<ServiceRef>, mirrors: bool): (cs: seq<Cluster>)
  {
    if refs == [] then [] else ClusterIn(env, ns, refs[0], mirrors) + ClustersOf(env, ns, refs[1..], mirrors)
  }

  ghost function AsSeq(c: Option<Cluster>): (cs: seq<Cluster>)
  {
    if c.None? then [] else [c.value]
  }

  ghost predicate RefKept(env: Env, ns: string, ref: ServiceRef)
  {
    RefOk(env, ns, ref) || Dangling(env, ns, ref)
  }

  /** No service makes the call give up, if this is the mirror so far: each is fine or not
      there, and one mirror at most is there. */
  ghost predicate KeptWith(env: Env, ns: string, refs: seq<ServiceRef>, mirror: Option<Cluster>)
  {
    && (forall i :: 0 <= i < |refs| ==> RefKept(env, ns, refs[i]))
    && |AsSeq(mirror) + ClustersOf(env, ns, refs, true)| <= 1
  }

  ghost predicate Kept(env: Env, ns: string, refs: seq<ServiceRef>)
  {
    KeptWith(env, ns, refs, None)
  }

  lemma ServiceStep(env: Env, ns: string, ref: ServiceRef, acc: Clusters)
    ensures var out := WithService(env, ns, ref, acc);
            && acc.issues <= out.issues
            && (out.issues == acc.issues && out.fatal == acc.fatal ==> RefOk(env, ns, ref))
            && (out.fatal && !acc.fatal ==> |out.issues| > |acc.issues|)
  {
  }

  lemma ServiceIsKept(env: Env, ns: string, ref: ServiceRef, acc: Clusters)
    requires !acc.fatal
    ensures var out := WithService(env, ns, ref, acc);
            && (!out.fatal <==> RefKept(env, ns, ref) && |AsSeq(acc.mirror) + ClusterIn(env, ns, ref, true)| <= 1)
            && (!out.fatal ==>
                  && out.clusters == acc.clusters + ClusterIn(env, ns, ref, false)
                  && AsSeq(out.mirror) == AsSeq(acc.mirror) + ClusterIn(env, ns, ref, true))
  {
  }

  lemma {:induction false} ServicesKeepIssues(env: Env, ns: string, refs: seq<ServiceRef>, acc: Clusters)
    requires !acc.fatal
    ensures var out := WithServices(env, ns, refs, acc);
            && acc.issues <= out.issues
            && (out.fatal ==> |out.issues| > |acc.issues|)
  {
    if refs != [] {
      var next := WithService(env, ns, refs[0], acc);
      ServiceStep(env, ns, refs[0], acc);
      if !next.fatal {
        ServicesKeepIssues(env, ns, refs[1..], next);
      }
    }
  }

  /** The loop keeps all errors, and without a new one nothing is wrong with any service. */
  lemma {:induction false} ServicesWithoutIssues(env: Env, ns: string, refs: seq<ServiceRef>, acc: Clusters)
    requires !acc.fatal && WithServices(env, ns, refs, acc).issues == acc.issues
    ensures forall i :: 0 <= i < |refs| ==> RefOk(env, ns, refs[i])
  {
    if refs != [] {
      var next := WithService(env, ns, refs[0], acc);
      ServiceStep(env, ns, refs[0], acc);
      if !next.fatal {
        ServicesKeepIssues(env, ns, refs[1..], next);
        assert next.issues == acc.issues;
        ServicesWithoutIssues(env, ns, refs[1..], next);
      }
      forall i | 0 <= i < |refs|
        ensures RefOk(env, ns, refs[i])
      {
        assert i > 0 ==> refs[1..][i - 1] == refs[i];
      }
    }
  }

  /** And if nothing is wrong with any service, and one mirror at most is there, there is no error. */
  lemma {:induction false} FineServices(env: Env, ns: string, refs: seq<ServiceRef>, acc: Clusters)
    requires !acc.fatal && KeptWith(env, ns, refs, acc.mirror)
    requires forall i :: 0 <= i < |refs| ==> RefOk(env, ns, refs[i])
    ensures WithServices(env, ns, refs, acc).issues == acc.issues
  {
    if refs != [] {
      var next := WithService(env, ns, refs[0], acc);
      ServiceIsKept(env, ns, refs[0], acc);
      if next.fatal {
        NotKeptFirst(env, ns, refs, acc.mirror);
      } else {
        KeptStep(env, ns, refs, acc.mirror, next.mirror);
        FineServices(env, ns, refs[1..], next);
      }
    }
  }

  lemma KeptStep(env: Env, ns: string, refs: seq<ServiceRef>, mirror: Option<Cluster>, next: Option<Cluster>)
    requires refs != [] && RefKept(env, ns, refs[0])
    requires AsSeq(next) == AsSeq(mirror) + ClusterIn(env, ns, refs[0], true)
    ensures KeptWith(env, ns, refs, mirror) <==> KeptWith(env, ns, refs[1..], next)
  {
    Regroup(AsSeq(mirror), ClusterIn(env, ns, refs[0], true), ClustersOf(env, ns, refs[1..], true));
    assert forall i :: 1 <= i < |refs| ==> refs[i] == refs[1..][i - 1];
  }

  lemma NotKeptFirst(env: Env, ns: string, refs: seq<ServiceRef>, mirror: Option<Cluster>)
    requires refs != [] && !(RefKept(env, ns, refs[0]) && |AsSeq(mirror) + ClusterIn(env, ns, refs[0], true)| <= 1)
    ensures !KeptWith(env, ns, refs, mirror)
  {
  }

  /** The loop over the services of a route gives up exactly when a service is wrong or a
      second mirror is there; otherwise the clusters are those of the services that are
      there, in order, and the mirror is the one mirror that is. */
  lemma {:induction false} ServicesMeaning(env: Env, ns: string, refs: seq<ServiceRef>, acc: Clusters)
    requires !acc.fatal
    ensures var out := WithServices(env, ns, refs, acc);
            && (!out.fatal <==> KeptWith(env, ns, refs, acc.mirror))
            && (!out.fatal ==>
                  && out.clusters == acc.clusters + ClustersOf(env, ns, refs, false)
                  && AsSeq(out.mirror) == AsSeq(acc.mirror) + ClustersOf(env, ns, refs, true))
  {
    if refs != [] {
      var next := WithService(env, ns, refs[0], acc);
      ServiceIsKept(env, ns, refs[0], acc);
      if next.fatal {
        NotKeptFirst(env, ns, refs, acc.mirror);
      } else {
        ServicesMeaning(env, ns, refs[1..], next);
        KeptStep(env, ns, refs, acc.mirror, next.mirror);
        Regroup(AsSeq(acc.mirror), ClusterIn(env, ns, refs[0], true), ClustersOf(env, ns, refs[1..], true));
        Regroup(acc.clusters, ClusterIn(env, ns, refs[0], false), ClustersOf(env, ns, refs[1..], false));
      }
    }
  }

  /** Where a route sends requests, and when it is built at all. */
  lemma RouteTargets(env: Env, ns: string, refs: seq<ServiceRef>)
    ensures var out := WithServices(env, ns, refs, NO_CLUSTERS);
            && (!out.fatal <==> Kept(env, ns, refs))
            && (!out.fatal ==>
                  && out.clusters == ClustersOf(env, ns, refs, false)
                  && AsSeq(out.mirror) == ClustersOf(env, ns, refs, true))
  {
    ServicesMeaning(env, ns, refs, NO_CLUSTERS);
    assert [] + ClustersOf(env, ns, refs, false) == ClustersOf(env, ns, refs, false);
    assert [] + ClustersOf(env, ns, refs, true) == ClustersOf(env, ns, refs, true);
  }
}
