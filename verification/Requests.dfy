/** Which requests the route at an address takes, told from the fields of the proxies on the way to
    it (internal/dag/httpproxy_processor.go, internal/dag/conditions.go, internal/dag/dag.go). */
module Requests {
  import opened Text
  import opened Dag
  import opened Kube
  import opened Conditions
  import opened HeaderMeaning
  import opened Sorter
  import opened Proxies
  import opened Compiler
  import opened Meaning
  import opened Origins
  import opened Edges

  // ----- wildcard hosts -------------------------------------------------------------------------------

  predicate IsMeta(c: char)
  {
    c in {'\\', '.', '+', '*', '?', '(', ')', '|', '[', ']', '{', '}', '^', '$'}
  }

  /** The text that an expression without operators stands for: a backslash takes the next
      character as it is, and no bare character has a meaning of its own. */
  function Unquoted(q: string): (t: Option<string>)
    decreases |q|
  {
    if q == "" then Some("")
    else if q[0] == '\\' then
      if |q| == 1 then None
      else
        var rest := Unquoted(q[2..]);
        if rest.None? then None else Some([q[1]] + rest.value)
    else if IsMeta(q[0]) then None
    else
      var rest := Unquoted(q[1..]);
      if rest.None? then None else Some([q[0]] + rest.value)
  }

  lemma {:induction false} QuotedIsRead(s: string)
    ensures Unquoted(QuoteMeta(s)) == Some(s)
  {
    if s != "" {
      var q, rest := QuoteMeta(s), QuoteMeta(s[1..]);
      QuotedIsRead(s[1..]);
      assert s == [s[0]] + s[1..];
      if IsMeta(s[0]) {
        assert q == ['\\', s[0]] + rest && q[2..] == rest;
      } else {
        assert q == [s[0]] + rest && q[1..] == rest;
      }
    }
  }

  predicate IsAlphanumeric(c: char)
  {
    'a' <= c <= 'z' || '0' <= c <= '9'
  }

  /** One DNS label. */
  predicate IsLabel(s: string)
  {
    && s != "" && IsAlphanumeric(s[0]) && IsAlphanumeric(s[|s| - 1])
    && forall i :: 0 <= i < |s| ==> IsAlphanumeric(s[i]) || s[i] == '-'
  }

  const LABEL := "^[a-z0-9]([-a-z0-9]*[a-z0-9])?"

  ghost predicate LabelBefore(s: string, t: string)
  {
    exists k :: 0 <= k <= |s| && IsLabel(s[..k]) && s[k..] == t
  }

  /** The proxy reads the expression for one label, followed by some text, as it is meant. */
  ghost predicate ReadsLabels(regexMatches: (string, string) -> bool)
  {
    forall q, s :: Unquoted(q).Some? ==> (regexMatches(LABEL + q, s) <==> LabelBefore(s, Unquoted(q).value))
  }

  /** The host of a request is one label below the domain of the wildcard. */
  ghost predicate IsBelow(hs: Headers, domain: string)
  {
    hs.valueOf(":authority").Some? && LabelBefore(hs.valueOf(":authority").value, "." + domain)
  }

  /** The match that a wildcard host adds holds of exactly the requests to a name with one label
      in place of the wildcard; other hosts add none. */
  lemma WildcardMeaning(fqdn: string, hs: Headers)
    requires ReadsLabels(hs.regexMatches)
    ensures AllHold(WildcardMatch(fqdn), hs) <==> ("*." <= fqdn ==> IsBelow(hs, fqdn[2..]))
  {
    if "*." <= fqdn {
      QuotedIsRead(fqdn[1..]);
      assert fqdn[1] == "*."[1];
      assert fqdn[1..] == "." + fqdn[2..];
      var ms := WildcardMatch(fqdn);
      var q := QuoteMeta(fqdn[1..]);
      assert ms == [HeaderMatch(":authority", LABEL + q, MatchRegex, false)];
      assert AllHold(ms, hs) <==> MatchHolds(ms[0], hs);
      var v := hs.valueOf(":authority");
      if v.Some? {
        assert hs.regexMatches(LABEL + q, v.value) <==> LabelBefore(v.value, Unquoted(q).value);
      }
    }
  }

  // ----- one route ------------------------------------------------------------------------------------

  ghost function RequestOf(path: string, hs: Headers): (q: Request)
  {
    Request(path, ms => AllHold(ms, hs), hs.regexMatches)
  }

  /** A route for a specification takes exactly the requests whose path has the merged prefix, of
      which all header conditions of the chain hold, and whose host is one label below a
      wildcard host. */
  lemma RouteTakesWhen(env: Env, root: Root, ns: string, conds: seq<MatchCondition>, r: RouteSpec, route: Route,
                       path: string, hs: Headers)
    requires IsRouteFor(env, root, ns, conds, r, route)
    requires NoneIgnored(conds + r.conditions) && ReadsLabels(hs.regexMatches)
    ensures Takes(route, RequestOf(path, hs)) <==>
            && MergedPrefix(conds + r.conditions) <= path
            && ChainHolds(conds + r.conditions, hs)
            && ("*." <= root.fqdn ==> IsBelow(hs, root.fqdn[2..]))
  {
    MergedMeaning(conds + r.conditions, hs);
    WildcardMeaning(root.fqdn, hs);
    AllHoldConcat(MergedHeaders(conds + r.conditions), WildcardMatch(root.fqdn), hs);
  }

  // ----- the way to an address ------------------------------------------------------------------------

  /** The include path leads along these proxies. */
  ghost predicate IsWay(env: Env, path: seq<nat>, ns: seq<Name>)
  {
    && |ns| == |path| + 1
    && (forall i :: 0 <= i < |ns| ==> ns[i] in env.proxies)
    && (forall i, j :: 0 <= i < j < |ns| && j == i + 1 ==> IncludeLeads(env, ns[i], path[i], ns[j]))
  }

  /** The conditions of the includes on the way, one block each. */
  ghost function BlocksOn(env: Env, path: seq<nat>, ns: seq<Name>): (blocks: seq<seq<MatchCondition>>)
    requires IsWay(env, path, ns)
  {
    if path == [] then []
    else
      WayTail(env, path, ns);
      [env.proxies[ns[0]].includes[path[0]].conditions] + BlocksOn(env, path[1..], ns[1..])
  }

  lemma WayTail(env: Env, path: seq<nat>, ns: seq<Name>)
    requires IsWay(env, path, ns) && path != []
    ensures IncludeLeads(env, ns[0], path[0], ns[1]) && IsWay(env, path[1..], ns[1..])
  {
    var rest := ns[1..];
    assert forall i :: 0 <= i < |rest| ==> rest[i] == ns[i + 1];
    forall i, j | 0 <= i < j < |rest| && j == i + 1
      ensures IncludeLeads(env, rest[i], path[1..][i], rest[j])
    {
      var k, l := i + 1, j + 1;
      assert IncludeLeads(env, ns[k], path[k], ns[l]);
    }
  }

  lemma WayCons(env: Env, n: Name, i: nat, path: seq<nat>, ns: seq<Name>)
    requires n in env.proxies && IsWay(env, path, ns) && IncludeLeads(env, n, i, ns[0])
    ensures IsWay(env, [i] + path, [n] + ns)
  {
    var all, steps := [n] + ns, [i] + path;
    assert forall k :: 1 <= k < |all| ==> all[k] == ns[k - 1];
    forall k, l | 0 <= k < l < |all| && l == k + 1
      ensures IncludeLeads(env, all[k], steps[k], all[l])
    {
      assert k > 0 ==> IncludeLeads(env, ns[k - 1], path[k - 1], ns[l - 1]);
    }
  }

  /** Every step of the way is by the fields of two proxies, and the conditions of the way are those
      of its includes. */
  lemma {:induction false} WayLeads(env: Env, path: seq<nat>, ns: seq<Name>)
    requires IsWay(env, path, ns)
    ensures NodeAt(env, ns[0], path) == Some(ns[|path|])
    ensures CondsAt(env, ns[0], path) == Flatten(BlocksOn(env, path, ns))
    ensures NamesBefore(env, ns[0], path) == ns[..|path|]
    decreases |path|
  {
    if path != [] {
      WayTail(env, path, ns);
      FollowWhen(env, ns[0], path[0], ns[1]);
      WayLeads(env, path[1..], ns[1..]);
      assert ns[..|path|] == [ns[0]] + ns[1..][..|path[1..]|];
    }
  }

  lemma {:induction false} WayOf(env: Env, name: Name, path: seq<nat>) returns (ns: seq<Name>)
    requires name in env.proxies && NodeAt(env, name, path).Some?
    ensures IsWay(env, path, ns) && ns[0] == name
    decreases |path|
  {
    if path == [] {
      ns := [name];
    } else {
      var p := env.proxies[name];
      var target := TargetOf(p, p.includes[path[0]]);
      FollowWhen(env, name, path[0], target);
      var rest := WayOf(env, target, path[1..]);
      WayCons(env, name, path[0], path[1..], rest);
      assert [path[0]] + path[1..] == path;
      ns := [name] + rest;
    }
  }

  /** An include path leads from one proxy to another exactly if there is such a way. */
  lemma WaysAreExactly(env: Env, name: Name, path: seq<nat>, m: Name)
    requires name in env.proxies
    ensures NodeAt(env, name, path) == Some(m) <==>
            exists ns :: IsWay(env, path, ns) && ns[0] == name && ns[|path|] == m
  {
    if NodeAt(env, name, path) == Some(m) {
      var ns := WayOf(env, name, path);
      WayLeads(env, path, ns);
    }
    if ns :| IsWay(env, path, ns) && ns[0] == name && ns[|path|] == m {
      WayLeads(env, path, ns);
    }
  }

  /** All the conditions of a route at an address: those of the includes on the way, then its own. */
  ghost function ChainTo(env: Env, a: Address, ns: seq<Name>): (conds: seq<MatchCondition>)
    requires IsWay(env, a.path, ns) && a.route < |env.proxies[ns[|a.path|]].routes|
  {
    Flatten(BlocksOn(env, a.path, ns)) + env.proxies[ns[|a.path|]].routes[a.route].conditions
  }

  /** The route at a compiled address takes exactly the requests whose path has the merged prefix
      of the conditions on the way and of its own, of which every header condition on the way and
      of its own holds, and whose host is one label below a wildcard host. */
  lemma AddressTakesWhen(env: Env, root: Root, a: Address, ns: seq<Name>, path: string, hs: Headers)
    requires IsWay(env, a.path, ns) && a.route < |env.proxies[ns[|a.path|]].routes|
    requires IsCompiledAddress(env, root, ns[0], [], [], a)
    requires NoneIgnored(ChainTo(env, a, ns)) && ReadsLabels(hs.regexMatches)
    ensures BuiltAt(env, root, ns[0], [], a).route.Some?
    ensures Takes(BuiltAt(env, root, ns[0], [], a).route.value, RequestOf(path, hs)) <==>
            && MergedPrefix(ChainTo(env, a, ns)) <= path && ChainHolds(ChainTo(env, a, ns), hs)
            && ("*." <= root.fqdn ==> IsBelow(hs, root.fqdn[2..]))
  {
    WayLeads(env, a.path, ns);
    RouteAtCompiledAddress(env, root, ns[0], a);
    var p := env.proxies[ns[|a.path|]];
    RouteTakesWhen(env, root, p.name.namespace, CondsAt(env, ns[0], a.path), p.routes[a.route],
                   BuiltAt(env, root, ns[0], [], a).route.value, path, hs);
  }

  // ----- includes that are missing --------------------------------------------------------------------

  /** The placeholder of a missing include answers 502 and nothing else. */
  predicate IsPlaceholder(form: Route)
  {
    && form.directResponse == Some(502) && form.redirect.None? && form.clusters == [] && form.mirror.None?
    && form.rewrite == "" && !form.httpsUpgrade
  }

  /** A missing include that has conditions has one placeholder, which takes exactly the requests
      whose path has the merged prefix of the include's own conditions and of which its own header
      conditions hold. */
  lemma MissingTakesWhen(inc: Include, path: string, hs: Headers)
    requires NoneIgnored(inc.conditions)
    ensures |Placeholder(inc)| == if inc.conditions == [] then 0 else 1
    ensures forall form :: form in Placeholder(inc) ==>
              && IsPlaceholder(form)
              && (Takes(form, RequestOf(path, hs)) <==>
                  MergedPrefix(inc.conditions) <= path && ChainHolds(inc.conditions, hs))
  {
    MergedMeaning(inc.conditions, hs);
  }

  predicate OnlySlashes(s: string)
  {
    forall i :: 0 <= i < |s| ==> s[i] == '/'
  }

  lemma {:induction false} WithoutSlashesConcat(a: string, b: string)
    ensures WithoutSlashes(a + b) == WithoutSlashes(a) + WithoutSlashes(b)
    ensures WithoutSlashes(a) == "" <==> OnlySlashes(a)
  {
    if a == "" {
      assert a + b == b;
    } else {
      assert (a + b)[1..] == a[1..] + b;
      WithoutSlashesConcat(a[1..], b);
      assert a == [a[0]] + a[1..];
    }
  }

  lemma {:induction false} SlashesCollapse(a: string, b: string)
    requires OnlySlashes(a) && (b == "" || b[0] == '/')
    ensures a == "" || b != "" ==> Collapse(a + b) == Collapse(b)
    ensures a != "" && b == "" ==> Collapse(a + b) == "/"
    decreases |a|
  {
    if a == "" {
      assert a + b == b;
    } else {
      SlashesCollapse(a[1..], b);
      assert a + b == [a[0]] + (a[1..] + b);
      CollapseCons(a[0], a[1..] + b);
    }
  }

  /** Below a chain of includes the placeholder stands at the wrong place: its prefix is that of the
      whole chain if and only if the prefixes above the include are nothing but slashes. */
  lemma PlaceholderIsInPlaceWhen(above: seq<MatchCondition>, inc: Include)
    requires Absolute(inc.conditions)
    ensures MergedPrefix(inc.conditions) == MergedPrefix(above + inc.conditions) <==> OnlySlashes(JoinedPrefixes(above))
  {
    var a, b := JoinedPrefixes(above), JoinedPrefixes(inc.conditions);
    JoinedPrefixesConcat(above, inc.conditions);
    WithoutSlashesConcat(a, b);
    CollapseKeepsTheRest(b);
    CollapseKeepsTheRest(a + b);
    JoinedIsAbsolute(inc.conditions);
    if OnlySlashes(a) {
      SlashesCollapse(a, b);
    }
    assert WithoutSlashes("/") == "";
  }

  lemma {:induction false} JoinedIsAbsolute(conds: seq<MatchCondition>)
    requires Absolute(conds)
    ensures JoinedPrefixes(conds) == "" || JoinedPrefixes(conds)[0] == '/'
  {
    if conds != [] {
      JoinedIsAbsolute(conds[1..]);
    }
  }
}
