/** The smaller loops of the HTTPProxy processor (internal/dag/httpproxy_processor.go and
    prefixReplacementsAreValid in internal/dag/policy.go). */
module Checks {
  import opened Text
  import opened Dag
  import opened Kube
  import opened Conditions
  import opened Issues
  import opened Proxies
  import opened Compiler
  import opened Builds
  import opened Slices

  method ConditionsMeet(a: seq<MatchCondition>, b: seq<MatchCondition>) returns (meet: bool)
    ensures meet <==> ShareCondition(a, b)
  {
    for x := 0 to |a|
      invariant forall i, y :: 0 <= i < x && 0 <= y < |b| ==> a[i] != b[y]
    {
      for y := 0 to |b|
        invariant forall k :: 0 <= k < y ==> a[x] != b[k]
      {
        if a[x].prefix == b[y].prefix && a[x].header == b[y].header {
          assert a[x] == b[y];
          return true;
        }
      }
    }
    return false;
  }

  /** Only neighbours are compared. */
  method IncludeMatchConditionsIdentical(includes: seq<Include>) returns (identical: bool)
    ensures identical <==> IncludesIdentical(includes)
  {
    var i, j := 1, 0;
    while i < |includes|
      invariant 1 <= i && j == i - 1
      invariant forall k :: 1 <= k < i && k < |includes| ==>
                  !ShareCondition(includes[k].conditions, includes[k - 1].conditions)
    {
      var meet := ConditionsMeet(includes[i].conditions, includes[j].conditions);
      if meet {
        return true;
      }
      i, j := i + 1, j + 1;
    }
    return false;
  }

  method PrefixReplacementsAreValid(rs: seq<Replacement>) returns (issue: Option<Issue>)
    ensures issue.None? <==> ReplacementsOk(rs)
    ensures issue.Some? ==> issue.value == ReplacementIssue(rs)
  {
    var prefixes: set<string> := {};
    for i := 0 to |rs|
      invariant prefixes == set k | 0 <= k < i :: rs[k].prefix
      invariant ReplacementsOk(rs[..i])
    {
      if rs[i].prefix in prefixes {
        var k :| 0 <= k < i && rs[k].prefix == rs[i].prefix;
        FirstDuplicateIs(rs, i, k, |rs|);
        return Some(Issue(PrefixReplaceError,
                          if rs[i].prefix != "" then DuplicateReplacement else AmbiguousReplacement));
      }
      prefixes := prefixes + {rs[i].prefix};
    }
    assert rs[..|rs|] == rs;
    return None;
  }

  lemma {:induction false} FirstDuplicateIs(rs: seq<Replacement>, i: nat, k: nat, n: nat)
    requires k < i < n <= |rs| && rs[k].prefix == rs[i].prefix && ReplacementsOk(rs[..i])
    ensures !ReplacementsOk(rs) && !ReplacementsOk(rs[..n]) && FirstDuplicate(rs, n) == i
  {
    assert rs[..n][k] == rs[k] && rs[..n][i] == rs[i];
    if n == i + 1 {
      assert rs[..n - 1] == rs[..i];
    } else {
      FirstDuplicateIs(rs, i, k, n - 1);
    }
  }

  /** The first replacement for a prefix; each of the two loops that look for one. */
  method FindReplacement(rs: seq<Replacement>, prefix: string) returns (r: string)
    ensures r == FirstReplacement(rs, prefix)
  {
    for i := 0 to |rs|
      invariant FirstReplacement(rs, prefix) == FirstReplacement(rs[i..], prefix)
    {
      if rs[i].prefix == prefix {
        return rs[i].replacement;
      }
    }
    return "";
  }

  method PrefixRewrite(rs: seq<Replacement>, routingPrefix: string) returns (r: string)
    ensures r == RewriteFor(rs, routingPrefix)
  {
    r := "";
    if routingPrefix != "" {
      r := FindReplacement(rs, routingPrefix);
    }
    if |r| == 0 {
      r := FindReplacement(rs, "");
    }
  }

  /** What the replacements mean when no prefix is replaced twice: an entry for the routing
      prefix wins, then the default one, and an empty replacement counts as none. */
  lemma RewriteMeaning(rs: seq<Replacement>, routingPrefix: string, k: nat)
    requires ReplacementsOk(rs) && k < |rs|
    ensures rs[k].prefix == routingPrefix != "" && rs[k].replacement != "" ==>
              RewriteFor(rs, routingPrefix) == rs[k].replacement
    ensures (rs[k].prefix == "" && forall j ::
               0 <= j < |rs| && rs[j].prefix == routingPrefix != "" ==> rs[j].replacement == "") ==>
              RewriteFor(rs, routingPrefix) == rs[k].replacement
  {
    if rs[k].prefix == routingPrefix {
      OnlyReplacement(rs, k);
    }
    if rs[k].prefix == "" {
      OnlyReplacement(rs, k);
      SomeReplacement(rs, routingPrefix);
    }
  }

  /** Without an entry for the routing prefix and without a default one there is no replacement. */
  lemma NoRewriteWhen(rs: seq<Replacement>, routingPrefix: string)
    requires forall j :: 0 <= j < |rs| && (rs[j].prefix == "" || rs[j].prefix == routingPrefix) ==>
               rs[j].replacement == ""
    ensures RewriteFor(rs, routingPrefix) == ""
  {
    SomeReplacement(rs, routingPrefix);
    SomeReplacement(rs, "");
  }

  lemma {:induction false} OnlyReplacement(rs: seq<Replacement>, k: nat)
    requires ReplacementsOk(rs) && k < |rs|
    ensures FirstReplacement(rs, rs[k].prefix) == rs[k].replacement
  {
    if k > 0 {
      OnlyReplacement(rs[1..], k - 1);
    }
  }

  lemma {:induction false} SomeReplacement(rs: seq<Replacement>, prefix: string)
    ensures FirstReplacement(rs, prefix) == "" ||
            exists j :: 0 <= j < |rs| && rs[j].prefix == prefix && rs[j].replacement == FirstReplacement(rs, prefix)
  {
    if rs != [] && rs[0].prefix != prefix {
      SomeReplacement(rs[1..], prefix);
      if FirstReplacement(rs[1..], prefix) != "" {
        var rest := rs[1..];
        var j :| 0 <= j < |rest| && rest[j].prefix == prefix && rest[j].replacement == FirstReplacement(rest, prefix);
        assert rs[j + 1] == rs[1..][j];
      }
    }
  }

  method GetProtocol(ref: ServiceRef, u: Upstream) returns (p: Option<string>)
    ensures p == ProtocolOf(ref, u)
  {
    if ref.protocol.Some? {
      if ref.protocol.value != "h2c" && ref.protocol.value != "h2" && ref.protocol.value != "tls" {
        return None;
      }
      return ref.protocol;
    }
    return Some(u.protocol);
  }

  /** Both walks look for a proxy among those on the path. */
  method OnPath(name: Name, visited: Slice<Name>) returns (found: bool)
    requires visited.Valid()
    ensures found <==> name in visited.Contents()
  {
    for i := 0 to visited.len
      invariant name !in visited.arr[..i]
    {
      if visited.arr[i].name == name.name && visited.arr[i].namespace == name.namespace {
        assert visited.Contents()[i] == name;
        return true;
      }
    }
    return false;
  }

  /** The source compares the names of the objects. In a cache that files objects by their names
      that is the same. */
  lemma OnPathByNames(env: Env, name: Name, path: seq<Name>)
    requires Filed(env) && name in env.proxies && forall i :: 0 <= i < |path| ==> path[i] in env.proxies
    ensures name in path <==> exists i :: 0 <= i < |path| && env.proxies[path[i]].name == env.proxies[name].name
  {
    if name in path {
      var i :| 0 <= i < |path| && path[i] == name;
    }
    if i :| 0 <= i < |path| && env.proxies[path[i]].name == env.proxies[name].name {
      assert path[i] == FiledUnder(env.proxies[name].name) == name;
    }
  }

  method NamespaceAllowed(env: Env, ns: string) returns (allowed: bool)
    ensures allowed <==> RootAllowed(env, ns)
  {
    if |env.rootNamespaces| == 0 {
      return true;
    }
    for i := 0 to |env.rootNamespaces|
      invariant ns !in env.rootNamespaces[..i]
    {
      if env.rootNamespaces[i] == ns {
        return true;
      }
    }
    return false;
  }

  // ----- hosts that more than one root asks for -------------------------------------------------

  ghost predicate NoRepeats(s: seq<Name>)
  {
    forall i, j :: 0 <= i < j < |s| ==> s[i] != s[j]
  }

  /** The host of a root, without case. */
  function HostKey(env: Env, n: Name): (key: string)
    requires IsRootProxy(env, n)
  {
    ToLower(env.proxies[n].vhost.value.fqdn)
  }

  /** Of the names in done: those without a host, and the others by host. */
  ghost predicate Grouped(env: Env, done: set<Name>, plain: seq<Name>, groups: map<string, seq<Name>>)
  {
    && done <= env.proxies.Keys
    && NoRepeats(plain) && (forall n :: n in plain <==> n in done && !IsRootProxy(env, n))
    && (forall key :: key in groups ==> NoRepeats(groups[key]) && groups[key] != [])
    && (forall key, n :: key in groups ==>
          (n in groups[key] <==> n in done && IsRootProxy(env, n) && HostKey(env, n) == key))
    && (forall n :: n in done && IsRootProxy(env, n) ==> HostKey(env, n) in groups)
  }

  lemma NoRepeatsSnoc(s: seq<Name>, n: Name)
    requires NoRepeats(s) && n !in s
    ensures NoRepeats(s + [n])
  {
  }

  lemma GroupedPlain(env: Env, done: set<Name>, plain: seq<Name>, groups: map<string, seq<Name>>, n: Name)
    requires Grouped(env, done, plain, groups) && n in env.proxies && n !in done && !IsRootProxy(env, n)
    ensures Grouped(env, done + {n}, plain + [n], groups)
  {
    NoRepeatsSnoc(plain, n);
  }

  lemma GroupedRoot(env: Env, done: set<Name>, plain: seq<Name>, groups: map<string, seq<Name>>, n: Name)
    requires Grouped(env, done, plain, groups) && n !in done && IsRootProxy(env, n)
    ensures var key := HostKey(env, n);
            var group := if key in groups then groups[key] else [];
            Grouped(env, done + {n}, plain, groups[key := group + [n]])
  {
    var key := HostKey(env, n);
    var group := if key in groups then groups[key] else [];
    NoRepeatsSnoc(group, n);
    var groups' := groups[key := group + [n]];
    forall k, m | k in groups'
      ensures m in groups'[k] <==> m in done + {n} && IsRootProxy(env, m) && HostKey(env, m) == k
    {
    }
  }

  /** The first loop of validHTTPProxies, over a map that is ranged over in any order. */
  method GroupByHost(env: Env) returns (plain: seq<Name>, groups: map<string, seq<Name>>)
    ensures Grouped(env, env.proxies.Keys, plain, groups)
  {
    plain, groups := [], map[];
    var todo := env.proxies.Keys;
    while todo != {}
      invariant todo <= env.proxies.Keys
      invariant Grouped(env, env.proxies.Keys - todo, plain, groups)
      decreases |todo|
    {
      var n :| n in todo;
      ghost var done := env.proxies.Keys - todo;
      assert env.proxies.Keys - (todo - {n}) == done + {n};
      if env.proxies[n].vhost.None? {
        GroupedPlain(env, done, plain, groups, n);
        plain := plain + [n];
      } else {
        GroupedRoot(env, done, plain, groups, n);
        var key := ToLower(env.proxies[n].vhost.value.fqdn);
        groups := groups[key := (if key in groups then groups[key] else []) + [n]];
      }
      todo := todo - {n};
    }
    assert env.proxies.Keys - {} == env.proxies.Keys;
  }

  /** A group of one is a host of its own; in a larger group no host is. */
  lemma GroupsTell(env: Env, plain: seq<Name>, groups: map<string, seq<Name>>, key: string, n: Name)
    requires Grouped(env, env.proxies.Keys, plain, groups) && key in groups && n in groups[key]
    ensures IsRootProxy(env, n)
    ensures HostIsUnique(env, n) <==> |groups[key]| == 1
  {
    var group := groups[key];
    var i :| 0 <= i < |group| && group[i] == n;
    if |group| == 1 {
      forall m | IsRootProxy(env, m) && m != n
        ensures HostKey(env, m) != HostKey(env, n)
      {
        assert m !in group;
      }
    } else {
      var j := if i == 0 then 1 else 0;
      assert group[j] in group && group[j] != n;
      assert HostKey(env, group[j]) == HostKey(env, n);
    }
  }
}
