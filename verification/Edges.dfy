/** The include edges between proxies, told from the fields of the objects alone
    (internal/dag/httpproxy_processor.go). */
module Edges {
  import opened Kube
  import opened Conditions
  import opened Proxies
  import opened Compiler
  import opened IncludeGraph
  import opened Reachability

  /** A proxy calls another by this namespace and name: without a namespace its own is meant. */
  ghost predicate Calls(p: Proxy, namespace: string, name: string, m: Name)
  {
    && m.name == name
    && (namespace != "" ==> m.namespace == namespace)
    && (namespace == "" ==> m.namespace == p.name.namespace)
  }

  // ----- routes ---------------------------------------------------------------------------------------

  ghost predicate Meet(a: Include, b: Include)
  {
    exists x, y :: 0 <= x < |a.conditions| && 0 <= y < |b.conditions| && a.conditions[x] == b.conditions[y]
  }

  /** Two neighbouring includes of the proxy have a condition in common. */
  ghost predicate NeighboursMeet(p: Proxy)
  {
    exists i, j :: 0 <= i < j < |p.includes| && j == i + 1 && Meet(p.includes[i], p.includes[j])
  }

  /** The conditions of the include pass: a valid path block, and no header condition that an
      earlier one rejects. */
  ghost predicate ConditionsPass(inc: Include)
  {
    PathBlockOk(inc.conditions) && NoRejection(HeadersOf(inc.conditions))
  }

  /** Include i of proxy n leads to proxy m. */
  ghost predicate IncludeLeads(env: Env, n: Name, i: nat, m: Name)
    requires n in env.proxies
  {
    var p := env.proxies[n];
    && i < |p.includes| && ConditionsPass(p.includes[i])
    && Calls(p, p.includes[i].namespace, p.includes[i].name, m)
    && m in env.proxies && env.proxies[m].vhost.None?
  }

  /** The route walk goes from n to m: no two neighbouring includes of n have a condition in
      common, and one of its includes leads to m. */
  ghost predicate RouteLeads(env: Env, n: Name, m: Name)
    requires n in env.proxies
  {
    !NeighboursMeet(env.proxies[n]) && exists i :: IncludeLeads(env, n, i, m)
  }

  lemma CallsOne(p: Proxy, namespace: string, name: string, m: Name)
    ensures Calls(p, namespace, name, m) <==> m == Qualified(p, namespace, name)
  {
  }

  lemma NeighboursMeetIs(p: Proxy)
    ensures NeighboursMeet(p) <==> IncludesIdentical(p.includes)
  {
    if i, j :| 0 <= i < j < |p.includes| && j == i + 1 && Meet(p.includes[i], p.includes[j]) {
      assert ShareCondition(p.includes[j].conditions, p.includes[j - 1].conditions);
    }
    if j :| 1 <= j < |p.includes| && ShareCondition(p.includes[j].conditions, p.includes[j - 1].conditions) {
      var i := j - 1;
      assert Meet(p.includes[i], p.includes[j]);
    }
  }

  /** What an include comes to, by the fields of both proxies. */
  lemma OutcomesAre(env: Env, p: Proxy, inc: Include, m: Name)
    requires Calls(p, inc.namespace, inc.name, m)
    ensures m == TargetOf(p, inc)
    ensures OutcomeOf(env, p, inc) ==
            if !PathBlockOk(inc.conditions) then BadPath
            else if !NoRejection(HeadersOf(inc.conditions)) then BadHeaders
            else if m !in env.proxies then NotFound
            else if env.proxies[m].vhost.Some? then IsRoot
            else Follow
  {
    CallsOne(p, inc.namespace, inc.name, m);
  }

  lemma FollowWhen(env: Env, n: Name, i: nat, m: Name)
    requires n in env.proxies && i < |env.proxies[n].includes|
    ensures var p := env.proxies[n];
            IncludeLeads(env, n, i, m) <==>
            OutcomeOf(env, p, p.includes[i]) == Follow && TargetOf(p, p.includes[i]) == m
  {
    var p := env.proxies[n];
    CallsOne(p, p.includes[i].namespace, p.includes[i].name, m);
  }

  /** The edges of the route walk are exactly these. */
  lemma RouteEdges(env: Env, n: Name, m: Name)
    requires n in env.proxies
    ensures m in RouteGraph(env)[n] <==> RouteLeads(env, n, m)
  {
    var p := env.proxies[n];
    NeighboursMeetIs(p);
    assert RouteGraph(env)[n] == RouteSuccessors(env, p);
    forall i | 0 <= i < |p.includes|
      ensures IncludeLeads(env, n, i, m) <==>
              OutcomeOf(env, p, p.includes[i]) == Follow && TargetOf(p, p.includes[i]) == m
    {
      FollowWhen(env, n, i, m);
    }
    if i :| IncludeLeads(env, n, i, m) {
      assert m in Targets(env, p, p.includes);
    }
    if m in Targets(env, p, p.includes) {
      var i :| 0 <= i < |p.includes| && OutcomeOf(env, p, p.includes[i]) == Follow && TargetOf(p, p.includes[i]) == m;
      assert IncludeLeads(env, n, i, m);
    }
  }

  // ----- TCP proxies --------------------------------------------------------------------------------------

  /** The TCP stanza of proxy n leads to proxy m: it has no services and an include that calls m,
      where the singular field counts and the plural one only if that is not set. */
  ghost predicate TCPLeads(env: Env, n: Name, m: Name)
    requires n in env.proxies
  {
    var p := env.proxies[n];
    && p.tcp.Some? && p.tcp.value.services == []
    && (p.tcp.value.incl.Some? ==> Calls(p, p.tcp.value.incl.value.namespace, p.tcp.value.incl.value.name, m))
    && (p.tcp.value.incl.None? ==>
          && p.tcp.value.inclDeprecated.Some?
          && Calls(p, p.tcp.value.inclDeprecated.value.namespace, p.tcp.value.inclDeprecated.value.name, m))
    && m in env.proxies && env.proxies[m].vhost.None?
  }

  lemma TCPFollowWhen(env: Env, n: Name, m: Name)
    requires n in env.proxies
    ensures TCPLeads(env, n, m) <==> TCPStepOf(env, env.proxies[n]) == TCPFollow(m)
  {
    var p := env.proxies[n];
    if p.tcp.Some? && TCPIncludeOf(p.tcp.value).Some? {
      var inc := TCPIncludeOf(p.tcp.value).value;
      CallsOne(p, inc.namespace, inc.name, m);
    }
  }

  /** The TCP walk goes from n to m exactly if the stanza of n leads to m. */
  lemma TCPEdges(env: Env, n: Name, m: Name)
    requires n in env.proxies
    ensures m in TCPGraph(env)[n] <==> TCPLeads(env, n, m)
  {
    TCPFollowWhen(env, n, m);
  }

  // ----- paths -----------------------------------------------------------------------------------------------

  /** A path of one step or more from n to m along includes of routes. */
  ghost predicate IsRoutePath(env: Env, path: seq<Name>, n: Name, m: Name)
  {
    && |path| >= 2 && path[0] == n && path[|path| - 1] == m
    && (forall k :: 0 <= k < |path| ==> path[k] in env.proxies)
    && (forall k, l :: 0 <= k < l < |path| && l == k + 1 ==> RouteLeads(env, path[k], path[l]))
  }

  /** The same along includes of TCP stanzas. */
  ghost predicate IsTCPPath(env: Env, path: seq<Name>, n: Name, m: Name)
  {
    && |path| >= 2 && path[0] == n && path[|path| - 1] == m
    && (forall k :: 0 <= k < |path| ==> path[k] in env.proxies)
    && (forall k, l :: 0 <= k < l < |path| && l == k + 1 ==> TCPLeads(env, path[k], path[l]))
  }

  lemma RoutePathsAre(env: Env, path: seq<Name>, n: Name, m: Name)
    ensures Leads(RouteGraph(env), path, n, m) <==> IsRoutePath(env, path, n, m)
  {
    forall k, l | 0 <= k < l < |path| && l == k + 1 && path[k] in env.proxies
      ensures path[l] in RouteGraph(env)[path[k]] <==> RouteLeads(env, path[k], path[l])
    {
      RouteEdges(env, path[k], path[l]);
    }
    if IsRoutePath(env, path, n, m) {
      forall k | 0 <= k < |path| - 1
        ensures path[k + 1] in RouteGraph(env)[path[k]]
      {
        var l := k + 1;
        assert RouteLeads(env, path[k], path[l]);
      }
    }
  }

  lemma TCPPathsAre(env: Env, path: seq<Name>, n: Name, m: Name)
    ensures Leads(TCPGraph(env), path, n, m) <==> IsTCPPath(env, path, n, m)
  {
    forall k, l | 0 <= k < l < |path| && l == k + 1 && path[k] in env.proxies
      ensures path[l] in TCPGraph(env)[path[k]] <==> TCPLeads(env, path[k], path[l])
    {
      TCPEdges(env, path[k], path[l]);
    }
    if IsTCPPath(env, path, n, m) {
      forall k | 0 <= k < |path| - 1
        ensures path[k + 1] in TCPGraph(env)[path[k]]
      {
        var l := k + 1;
        assert TCPLeads(env, path[k], path[l]);
      }
    }
  }
}
