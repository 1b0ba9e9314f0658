/** What the check for duplicate include conditions finds
    (includeMatchConditionsIdentical in internal/dag/httpproxy_processor.go). */
module Duplicates {
  import opened Text
  import opened Kube
  import opened Conditions
  import opened Proxies
  import opened Compiler
  import opened Compiled

  const CHILD := Name("ns", "child")
  const PARENT := Name("ns", "parent")

  /** Includes of the child, of which only those at i and j have a condition, the same one. */
  function Spread(n: nat, i: nat, j: nat): (incs: seq<Include>)
  {
    seq(n, k => Include(CHILD.name, "", if k == i || k == j then [MatchCondition("/a", None)] else []))
  }

  ghost predicate ShareAt(incs: seq<Include>, i: nat, j: nat)
  {
    i < |incs| && j < |incs| && ShareCondition(incs[i].conditions, incs[j].conditions)
  }

  lemma SpreadShares(n: nat, i: nat, j: nat)
    requires i + 1 < j < n
    ensures ShareAt(Spread(n, i, j), i, j) && !IncludesIdentical(Spread(n, i, j))
  {
    var incs := Spread(n, i, j);
    assert incs[i].conditions[0] == incs[j].conditions[0];
  }

  /** The check is sure to find a condition that the includes at two positions share if and
      only if the positions are neighbours. */
  lemma DuplicateIsFoundWhen(n: nat, i: nat, j: nat)
    requires i < j < n
    ensures (forall incs: seq<Include> :: |incs| == n && ShareAt(incs, i, j) ==> IncludesIdentical(incs)) <==>
            j == i + 1
  {
    if j == i + 1 {
      forall incs: seq<Include> | |incs| == n && ShareAt(incs, i, j)
        ensures IncludesIdentical(incs)
      {
        var x, y :| 0 <= x < |incs[i].conditions| && 0 <= y < |incs[j].conditions|
                    && incs[i].conditions[x] == incs[j].conditions[y];
        assert incs[j].conditions[y] == incs[i].conditions[x];
        assert ShareCondition(incs[j].conditions, incs[j - 1].conditions);
      }
    } else {
      SpreadShares(n, i, j);
    }
  }

  function SpreadEnv(n: nat, i: nat, j: nat): (env: Env)
  {
    Env(map[PARENT := Proxy(PARENT, 1, Some(VirtualHost("a.example", None, None)), Spread(n, i, j), [], None),
            CHILD := Proxy(CHILD, 1, None, [], [], None)],
        map[], [], false, false)
  }

  /** For every two positions that are not neighbours there is a proxy whose includes share a
      condition there and that is given no error. */
  lemma DistantDuplicateIsMissed(n: nat, i: nat, j: nat, root: Root)
    requires i + 1 < j < n
    ensures var env := SpreadEnv(n, i, j);
            ShareAt(env.proxies[PARENT].includes, i, j) && OwnIssues(env, root, PARENT, [], []) == []
  {
    var env := SpreadEnv(n, i, j);
    var p := env.proxies[PARENT];
    SpreadShares(n, i, j);
    forall k | 0 <= k < |p.includes|
      ensures OutcomeOf(env, p, p.includes[k]) == Follow
    {
      SpreadIsFollowed(n, i, j, k);
    }
    IncludesWithoutIssues(env, p, p.includes);
    assert RouteIssues(env, root, p.name.namespace, [], p.routes) == [];
  }

  lemma SpreadIsFollowed(n: nat, i: nat, j: nat, k: nat)
    requires k < n
    ensures var env := SpreadEnv(n, i, j);
            OutcomeOf(env, env.proxies[PARENT], Spread(n, i, j)[k]) == Follow
  {
    var inc := Spread(n, i, j)[k];
    assert HeadersOf(inc.conditions) == [];
  }
}
