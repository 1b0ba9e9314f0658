/** expandPrefixMatches as it runs: routes are pointers, grouped in a map that is
    ranged over in any order, and the lone route of a group is changed in place. */
module ExpandRoutes {
  import opened Text
  import opened Dag
  import opened Expansion

  /** A *Route: a cell that holds a route. */
  class RoutePtr {
    var route: Route

    constructor (route: Route)
      ensures this.route == route
    {
      this.route := route;
    }
  }

  function Values(ps: seq<RoutePtr>): (vals: seq<Route>)
    reads ps
    ensures |vals| == |ps|
    ensures forall i :: 0 <= i < |ps| ==> vals[i] == ps[i].route
  {
    seq(|ps|, i requires 0 <= i < |ps| reads ps => ps[i].route)
  }

  ghost predicate Distinct<T>(s: seq<T>)
  {
    forall i, j :: 0 <= i < j < |s| ==> s[i] != s[j]
  }

  // ----- routes of some groups ----------------------------------------------------------

  ghost function InGroups(s: seq<Route>, keys: set<string>): (part: seq<Route>)
    requires AllPrefix(s)
    ensures AllPrefix(part)
    ensures forall i :: 0 <= i < |part| ==> KeyOf(part[i]) in keys
  {
    if s == [] then []
    else (if KeyOf(s[0]) in keys then [s[0]] else []) + InGroups(s[1..], keys)
  }

  lemma {:induction false} InGroupsConcat(a: seq<Route>, b: seq<Route>, keys: set<string>)
    requires AllPrefix(a) && AllPrefix(b)
    ensures InGroups(a + b, keys) == InGroups(a, keys) + InGroups(b, keys)
  {
    if a == [] {
      assert a + b == b;
    } else {
      assert (a + b)[1..] == a[1..] + b;
      InGroupsConcat(a[1..], b, keys);
    }
  }

  lemma {:induction false} InAllGroups(s: seq<Route>, keys: set<string>)
    requires AllPrefix(s)
    requires forall i :: 0 <= i < |s| ==> KeyOf(s[i]) in keys
    ensures InGroups(s, keys) == s
  {
    if s != [] {
      InAllGroups(s[1..], keys);
    }
  }

  lemma {:induction false} GroupSizeIsLength(s: seq<Route>, k: string)
    requires AllPrefix(s)
    ensures GroupSize(s, k) == |InGroups(s, {k})|
  {
    if s != [] {
      GroupSizeIsLength(s[1..], k);
    }
  }

  lemma {:induction false} InOneMoreGroup(s: seq<Route>, keys: set<string>, k: string)
    requires AllPrefix(s) && k !in keys
    ensures multiset(InGroups(s, keys + {k})) == multiset(InGroups(s, keys) + InGroups(s, {k}))
  {
    if s != [] {
      InOneMoreGroup(s[1..], keys, k);
    }
  }

  /** The routes of one more group. */
  lemma OneMoreGroup(s: seq<Route>, context: seq<Route>, keys: set<string>, k: string)
    requires AllPrefix(s) && AllPrefix(context) && k !in keys
    ensures multiset(ExpandIn(InGroups(s, keys + {k}), context)) ==
            multiset(ExpandIn(InGroups(s, keys), context)) + multiset(ExpandIn(InGroups(s, {k}), context))
  {
    InOneMoreGroup(s, keys, k);
    ExpandInPermutation(InGroups(s, keys + {k}), InGroups(s, keys) + InGroups(s, {k}), context);
    ExpandInConcat(InGroups(s, keys), InGroups(s, {k}), context);
  }

  /** A group of several routes is left as it is; a group of one takes its forms. */
  lemma {:induction false} ExpandGroupIn(part: seq<Route>, context: seq<Route>, k: string)
    requires AllPrefix(part) && AllPrefix(context)
    requires forall i :: 0 <= i < |part| ==> KeyOf(part[i]) == k
    ensures GroupSize(context, k) != 1 ==> ExpandIn(part, context) == part
    ensures GroupSize(context, k) == 1 && |part| == 1 ==> ExpandIn(part, context) == Forms(part[0], true)
  {
    if part != [] {
      ExpandGroupIn(part[1..], context, k);
    }
  }

  // ----- the code -------------------------------------------------------------------------

  /** A route is split: it becomes the short form, and a shallow copy of it the long one. */
  method SplitRoute(prefix: string, r: RoutePtr) returns (newRoute: RoutePtr)
    requires Splits(r.route, true) && KeyOf(r.route) == prefix
    modifies r
    ensures fresh(newRoute) && r.route == ShortForm(old(r.route)) && newRoute.route == LongForm(old(r.route))
  {
    newRoute := new RoutePtr(r.route);
    r.route := r.route.(rewrite := TrimRight(r.route.rewrite));
    r.route := r.route.(path := Prefix(prefix, StringPrefix));
    newRoute.route := newRoute.route.(rewrite := r.route.rewrite + "/");
    newRoute.route := newRoute.route.(path := Prefix(prefix + "/", StringPrefix));
    if r.route.rewrite == "" {
      r.route := r.route.(rewrite := "/");
    }
  }

  /** The body of the second loop: one group, keyed by its slash-consistent prefix. */
  method ExpandGroup(prefix: string, routes: seq<RoutePtr>) returns (added: seq<RoutePtr>)
    requires AllPrefix(Values(routes)) && routes != []
    requires forall i :: 0 <= i < |routes| ==> KeyOf(routes[i].route) == prefix
    modifies routes[0]
    ensures forall p :: p in added ==> fresh(p)
    ensures |added| <= 1
    ensures Values(routes) + Values(added) ==
            if |routes| == 1 then Forms(old(routes[0].route), true) else old(Values(routes))
  {
    added := [];
    if |routes| == 1 {
      var r := routes[0];
      if r.route.rewrite == "" {
        return;
      }
      if r.route.path.prefix == "/" {
        return;
      }
      var newRoute := SplitRoute(prefix, r);
      added := [newRoute];
    }
  }

  /** The pointers whose key is k, in order; keys are those on entry. */
  ghost function Select(key: map<RoutePtr, string>, ps: seq<RoutePtr>, k: string): (sel: seq<RoutePtr>)
    requires forall p :: p in ps ==> p in key
    ensures forall p :: p in sel ==> p in ps && key[p] == k
    ensures forall p :: p in ps && key[p] == k ==> p in sel
  {
    if ps == [] then []
    else (if key[ps[0]] == k then [ps[0]] else []) + Select(key, ps[1..], k)
  }

  lemma {:induction false} SelectConcat(key: map<RoutePtr, string>, a: seq<RoutePtr>, b: seq<RoutePtr>, k: string)
    requires forall p :: p in a + b ==> p in key
    ensures Select(key, a + b, k) == Select(key, a, k) + Select(key, b, k)
  {
    assert forall p :: p in a ==> p in a + b;
    assert forall p :: p in b ==> p in a + b;
    if a == [] {
      assert a + b == b;
    } else {
      assert (a + b)[1..] == a[1..] + b;
      SelectConcat(key, a[1..], b, k);
    }
  }

  lemma {:induction false} SelectDistinct(key: map<RoutePtr, string>, ps: seq<RoutePtr>, k: string)
    requires forall p :: p in ps ==> p in key
    requires Distinct(ps)
    ensures Distinct(Select(key, ps, k))
  {
    if ps != [] {
      SelectDistinct(key, ps[1..], k);
      assert ps[0] !in ps[1..];
    }
  }

  lemma {:induction false} SelectValues(key: map<RoutePtr, string>, ps: seq<RoutePtr>, vals: seq<Route>, k: string)
    requires forall p :: p in ps ==> p in key
    requires |ps| == |vals| && AllPrefix(vals)
    requires forall j :: 0 <= j < |ps| ==> key[ps[j]] == KeyOf(vals[j])
    requires forall j :: 0 <= j < |ps| && key[ps[j]] == k ==> ps[j].route == vals[j]
    ensures Values(Select(key, ps, k)) == InGroups(vals, {k})
  {
    if ps != [] {
      SelectValues(key, ps[1..], vals[1..], k);
      var rest := Select(key, ps[1..], k);
      if key[ps[0]] == k {
        ValuesCons(ps[0], rest);
      } else {
        assert Select(key, ps, k) == rest;
      }
    }
  }

  lemma ValuesCons(p: RoutePtr, rest: seq<RoutePtr>)
    ensures Values([p] + rest) == [p.route] + Values(rest)
  {
  }

  lemma {:induction false} SelectNone(key: map<RoutePtr, string>, ps: seq<RoutePtr>, k: string)
    requires forall p :: p in ps ==> p in key && key[p] != k
    ensures Select(key, ps, k) == []
  {
    if ps != [] {
      SelectNone(key, ps[1..], k);
    }
  }

  ghost predicate GroupsOf(groups: map<string, seq<RoutePtr>>, key: map<RoutePtr, string>, ps: seq<RoutePtr>)
    requires forall p :: p in ps ==> p in key
  {
    && (forall p :: p in ps ==> key[p] in groups)
    && (forall k :: k in groups ==> groups[k] != [] && groups[k] == Select(key, ps, k))
  }

  lemma GroupsOfNext(groups: map<string, seq<RoutePtr>>, key: map<RoutePtr, string>, ps: seq<RoutePtr>, p: RoutePtr)
    requires forall q :: q in ps + [p] ==> q in key
    requires p in key && (forall q :: q in ps ==> q in key) && GroupsOf(groups, key, ps)
    ensures GroupsOf(groups[key[p] := (if key[p] in groups then groups[key[p]] else []) + [p]], key, ps + [p])
  {
    var before := if key[p] in groups then groups[key[p]] else [];
    var next := groups[key[p] := before + [p]];
    if key[p] !in groups {
      SelectNone(key, ps, key[p]);
    }
    forall k | k in next
      ensures next[k] != [] && next[k] == Select(key, ps + [p], k)
    {
      SelectSnoc(key, ps, p, k);
    }
  }

  lemma SelectSnoc(key: map<RoutePtr, string>, ps: seq<RoutePtr>, p: RoutePtr, k: string)
    requires (forall q :: q in ps + [p] ==> q in key) && p in key && (forall q :: q in ps ==> q in key)
    ensures Select(key, ps + [p], k) == Select(key, ps, k) + if key[p] == k then [p] else []
  {
    SelectConcat(key, ps, [p], k);
    assert [p][1..] == [];
  }

  lemma GroupsOfPrefix(groups: map<string, seq<RoutePtr>>, key: map<RoutePtr, string>, ps: seq<RoutePtr>, i: nat)
    requires (forall q :: q in ps ==> q in key) && i < |ps| && GroupsOf(groups, key, ps[..i])
    ensures var k := key[ps[i]];
            GroupsOf(groups[k := (if k in groups then groups[k] else []) + [ps[i]]], key, ps[..i + 1])
  {
    assert ps[..i + 1] == ps[..i] + [ps[i]];
    GroupsOfNext(groups, key, ps[..i], ps[i]);
  }

  /** The first loop. (The append for a route without a prefix is dead: the type
      assertion that follows it would panic.) */
  method GroupByPrefix(routes: seq<RoutePtr>, ghost key: map<RoutePtr, string>)
    returns (groups: map<string, seq<RoutePtr>>)
    requires AllPrefix(Values(routes))
    requires forall p :: p in routes ==> p in key
    requires forall j :: 0 <= j < |routes| ==> key[routes[j]] == KeyOf(Values(routes)[j])
    ensures GroupsOf(groups, key, routes)
  {
    groups := map[];
    for i := 0 to |routes|
      invariant GroupsOf(groups, key, routes[..i])
    {
      var r := Values(routes)[i];
      var routingPrefix := r.path.prefix;
      if routingPrefix != "/" {
        routingPrefix := TrimRight(routingPrefix);
      }
      GroupsOfPrefix(groups, key, routes, i);
      groups := groups[routingPrefix := (if routingPrefix in groups then groups[routingPrefix] else []) + [routes[i]]];
    }
    assert routes[..|routes|] == routes;
  }

  /** What the second loop keeps: the groups in `done` are in the result in their final
      form, the routes of all other groups are as they were. */
  ghost predicate Progress(expanded: seq<RoutePtr>, key: map<RoutePtr, string>, routes: seq<RoutePtr>,
                           vals: seq<Route>, done: set<string>)
    reads expanded, routes
    requires AllPrefix(vals) && |vals| == |routes|
    requires forall p :: p in routes ==> p in key
  {
    && (forall j :: 0 <= j < |routes| && key[routes[j]] !in done ==> routes[j].route == vals[j])
    && (forall p :: p in expanded && p in routes ==> key[p] in done)
    && Distinct(expanded)
    && multiset(Values(expanded)) == multiset(ExpandIn(InGroups(vals, done), vals))
  }

  /** Whatever the order in which the groups come, the result is the expansion. */
  method ExpandPrefixMatches(routes: seq<RoutePtr>) returns (expanded: seq<RoutePtr>)
    requires AllPrefix(Values(routes)) && Distinct(routes)
    modifies routes
    ensures multiset(Values(expanded)) == multiset(Expand(old(Values(routes))))
    ensures Distinct(expanded)
    ensures forall p :: p in expanded ==> p in routes || fresh(p)
  {
    ghost var vals := Values(routes);
    assert forall p :: p in routes ==> IsPrefixRoute(p.route);
    ghost var key := map p | p in routes :: KeyOf(p.route);
    var groups := GroupByPrefix(routes, key);
    expanded := ExpandGroups(groups, routes, key, vals);
    AllDone(expanded, key, routes, vals, groups.Keys);
  }

  /** The second loop, over the groups in any order. */
  method ExpandGroups(groups: map<string, seq<RoutePtr>>, routes: seq<RoutePtr>, ghost key: map<RoutePtr, string>,
                      ghost vals: seq<Route>)
    returns (expanded: seq<RoutePtr>)
    requires AllPrefix(vals) && vals == Values(routes) && Distinct(routes)
    requires forall p :: p in routes ==> p in key
    requires forall j :: 0 <= j < |routes| ==> key[routes[j]] == KeyOf(vals[j])
    requires GroupsOf(groups, key, routes)
    modifies routes
    ensures Progress(expanded, key, routes, vals, groups.Keys)
    ensures forall p :: p in expanded ==> p in routes || fresh(p)
  {
    expanded := [];
    ghost var done: set<string> := {};
    var todo := groups.Keys;
    NothingDone(key, routes, vals);
    while todo != {}
      invariant todo <= groups.Keys && done == groups.Keys - todo
      invariant forall p :: p in expanded ==> p in routes || fresh(p)
      invariant Progress(expanded, key, routes, vals, done)
      decreases todo
    {
      var prefix :| prefix in todo;
      expanded := ExpandOne(prefix, groups[prefix], expanded, key, routes, vals, done);
      OneLess(groups.Keys, todo, prefix);
      todo := todo - {prefix};
      done := done + {prefix};
    }
    assert done == groups.Keys;
  }

  lemma NothingDone(key: map<RoutePtr, string>, routes: seq<RoutePtr>, vals: seq<Route>)
    requires AllPrefix(vals) && vals == Values(routes) && forall p :: p in routes ==> p in key
    ensures Progress([], key, routes, vals, {})
  {
    InGroupsNone(vals);
    assert Values([]) == [];
  }

  lemma AllDone(expanded: seq<RoutePtr>, key: map<RoutePtr, string>, routes: seq<RoutePtr>, vals: seq<Route>,
                done: set<string>)
    requires AllPrefix(vals) && |vals| == |routes|
    requires forall p :: p in routes ==> p in key && key[p] in done
    requires forall j :: 0 <= j < |routes| ==> key[routes[j]] == KeyOf(vals[j])
    requires Progress(expanded, key, routes, vals, done)
    ensures multiset(Values(expanded)) == multiset(Expand(vals)) && Distinct(expanded)
  {
    forall j | 0 <= j < |vals|
      ensures KeyOf(vals[j]) in done
    {
      assert routes[j] in routes;
    }
    InAllGroups(vals, done);
  }

  lemma OneLess<T>(all: set<T>, todo: set<T>, x: T)
    requires todo <= all && x in todo
    ensures all - (todo - {x}) == (all - todo) + {x}
  {
  }

  lemma ValuesConcat(a: seq<RoutePtr>, b: seq<RoutePtr>)
    ensures Values(a + b) == Values(a) + Values(b)
  {
  }

  lemma {:induction false} InGroupsNone(s: seq<Route>)
    requires AllPrefix(s)
    ensures InGroups(s, {}) == []
  {
    if s != [] {
      InGroupsNone(s[1..]);
    }
  }

  lemma DistinctConcat<T>(a: seq<T>, b: seq<T>, c: seq<T>)
    requires Distinct(a) && Distinct(b) && |c| <= 1
    requires forall x :: x in a ==> x !in b
    requires forall x :: x in c ==> x !in a && x !in b
    ensures Distinct(a + b + c)
  {
    var s := a + b + c;
    forall i, j | 0 <= i < j < |s|
      ensures s[i] != s[j]
    {
      assert i < |a| ==> s[i] == a[i] && s[i] in a;
      assert |a| <= j < |a| + |b| ==> s[j] == b[j - |a|] && s[j] in b;
      assert |a| <= i < |a| + |b| ==> s[i] == b[i - |a|] && s[i] in b;
      assert j >= |a| + |b| ==> s[j] == c[j - |a| - |b|] && s[j] in c;
    }
  }

  /** One turn of the second loop. */
  method ExpandOne(prefix: string, group: seq<RoutePtr>, before: seq<RoutePtr>,
                   ghost key: map<RoutePtr, string>, ghost routes: seq<RoutePtr>, ghost vals: seq<Route>,
                   ghost done: set<string>)
    returns (expanded: seq<RoutePtr>)
    requires Distinct(routes) && |routes| == |vals| && AllPrefix(vals)
    requires forall p :: p in routes ==> p in key
    requires forall j :: 0 <= j < |routes| ==> key[routes[j]] == KeyOf(vals[j])
    requires prefix !in done && group != [] && group == Select(key, routes, prefix)
    requires Progress(before, key, routes, vals, done)
    modifies routes
    ensures forall p :: p in expanded ==> p in before || p in routes || fresh(p)
    ensures Progress(expanded, key, routes, vals, done + {prefix})
  {
    SelectValues(key, routes, vals, prefix);
    var added := ExpandRest(prefix, group, before, key, routes);
    expanded := before + group + added;
    TurnIsProgress(prefix, group, before, added, key, routes, vals, done);
  }

  /** After a turn: the group and what was added to it are in their final form. */
  lemma TurnIsProgress(prefix: string, group: seq<RoutePtr>, before: seq<RoutePtr>, added: seq<RoutePtr>,
                       key: map<RoutePtr, string>, routes: seq<RoutePtr>, vals: seq<Route>, done: set<string>)
    requires Distinct(routes) && |routes| == |vals| && AllPrefix(vals)
    requires forall p :: p in routes ==> p in key
    requires prefix !in done && group == Select(key, routes, prefix)
    requires Distinct(before) && (forall p :: p in before && p in routes ==> key[p] in done)
    requires |added| <= 1 && (forall p :: p in added ==> p !in before && p !in routes)
    requires forall j :: 0 <= j < |routes| && key[routes[j]] !in done + {prefix} ==> routes[j].route == vals[j]
    requires multiset(Values(before)) == multiset(ExpandIn(InGroups(vals, done), vals))
    requires Values(group) + Values(added) ==
             var part := InGroups(vals, {prefix});
             if |part| == 1 then Forms(part[0], true) else part
    ensures Progress(before + group + added, key, routes, vals, done + {prefix})
  {
    SelectDistinct(key, routes, prefix);
    DistinctConcat(before, group, added);
    ValuesOfThree(before, group, added);
    Account(vals, done, prefix, Values(before), Values(group) + Values(added));
  }

  /** ExpandGroup, seen from the other routes: nothing else changes. */
  method ExpandRest(prefix: string, group: seq<RoutePtr>, ghost before: seq<RoutePtr>,
                    ghost key: map<RoutePtr, string>, ghost routes: seq<RoutePtr>)
    returns (added: seq<RoutePtr>)
    requires forall p :: p in routes ==> p in key
    requires group != [] && group == Select(key, routes, prefix)
    requires AllPrefix(Values(group)) && forall i :: 0 <= i < |group| ==> KeyOf(Values(group)[i]) == prefix
    requires forall p :: p in group ==> p !in before
    modifies routes
    ensures forall p :: p in added ==> fresh(p)
    ensures |added| <= 1
    ensures Values(group) + Values(added) ==
            if |group| == 1 then Forms(old(Values(group)[0]), true) else old(Values(group))
    ensures Values(before) == old(Values(before))
    ensures forall j :: 0 <= j < |routes| && key[routes[j]] != prefix ==> routes[j].route == old(routes[j].route)
  {
    assert group[0] in group;
    ghost var j :| 0 <= j < |routes| && routes[j] == group[0];
    assert forall i :: 0 <= i < |group| ==> KeyOf(group[i].route) == KeyOf(Values(group)[i]);
    added := ExpandGroup(prefix, group);
    assert forall x :: 0 <= x < |before| ==> before[x] in before && before[x] != group[0];
  }

  lemma ValuesOfThree(a: seq<RoutePtr>, b: seq<RoutePtr>, c: seq<RoutePtr>)
    ensures Values(a + b + c) == Values(a) + (Values(b) + Values(c))
  {
    ValuesConcat(a, b);
    ValuesConcat(a + b, c);
  }

  /** The books of one turn, in values. */
  lemma Account(vals: seq<Route>, done: set<string>, prefix: string, beforeVals: seq<Route>, newVals: seq<Route>)
    requires AllPrefix(vals) && prefix !in done
    requires multiset(beforeVals) == multiset(ExpandIn(InGroups(vals, done), vals))
    requires var group := InGroups(vals, {prefix});
             newVals == if |group| == 1 then Forms(group[0], true) else group
    ensures multiset(beforeVals + newVals) == multiset(ExpandIn(InGroups(vals, done + {prefix}), vals))
  {
    GroupSizeIsLength(vals, prefix);
    ExpandGroupIn(InGroups(vals, {prefix}), vals, prefix);
    OneMoreGroup(vals, vals, done, prefix);
  }
}
