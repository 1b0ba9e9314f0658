/** The routes of a virtual host are kept in a map, under a text made of their match
    conditions (internal/dag/dag.go): a route replaces an earlier one with the same text. */
module VirtualHosts {
  import opened Dag

  function PathString(m: PathMatch): (s: string)
  {
    match m
    case Prefix(p, StringPrefix) => "prefix: " + p + " type: string"
    case Prefix(p, SegmentPrefix) => "prefix: " + p + " type: segment"
    case Regex(re) => "regex: " + re
    case Exact(p) => "exact: " + p
  }

  function TypeString(t: HeaderMatchType): (s: string)
  {
    match t
    case MatchExact => "exact"
    case MatchContains => "contains"
    case MatchPresent => "present"
    case MatchRegex => "regex"
  }

  /** The type and the inversion are joined to their labels by '&' as well. */
  function HeaderString(h: HeaderMatch): (s: string)
  {
    "header: name=" + h.name + "&value=" + h.value + "&matchtype=&" + TypeString(h.matchType)
    + "&invert=&" + (if h.invert then "true" else "false")
  }

  function Joined(hs: seq<HeaderMatch>): (s: string)
  {
    if hs == [] then "" else Joined(hs[..|hs| - 1]) + "," + HeaderString(hs[|hs| - 1])
  }

  function KeyString(r: Route): (s: string)
  {
    PathString(r.path) + Joined(r.headers)
  }

  method ConditionsToString(r: Route) returns (s: string)
    ensures s == KeyString(r)
  {
    s := PathString(r.path);
    for i := 0 to |r.headers|
      invariant s == PathString(r.path) + Joined(r.headers[..i])
    {
      var h := HeaderString(r.headers[i]);
      JoinedSnoc(r.headers, i, PathString(r.path), h);
      s := s + "," + h;
    }
    assert r.headers[..|r.headers|] == r.headers;
  }

  lemma JoinedSnoc(hs: seq<HeaderMatch>, i: nat, path: string, h: string)
    requires i < |hs| && h == HeaderString(hs[i])
    ensures path + Joined(hs[..i]) + "," + h == path + Joined(hs[..i + 1])
  {
    assert hs[..i + 1][..i] == hs[..i];
    assert Joined(hs[..i + 1]) == Joined(hs[..i]) + "," + h;
    Reassociate(path, Joined(hs[..i]), h);
  }

  lemma Reassociate(a: string, b: string, c: string)
    ensures a + b + "," + c == a + (b + "," + c)
  {
  }

  type Routes = map<string, Route>

  /** addRoute for one route after another. */
  ghost function Added(m: Routes, rs: seq<Route>): (out: Routes)
  {
    if rs == [] then m else Added(m, rs[..|rs| - 1])[KeyString(rs[|rs| - 1]) := rs[|rs| - 1]]
  }

  /** Routes with the same text are the same. */
  ghost predicate Agree(rs: seq<Route>)
  {
    forall r, s :: r in rs && s in rs && KeyString(r) == KeyString(s) ==> r == s
  }

  ghost function Texts(rs: seq<Route>): (keys: seq<string>)
    ensures |keys| == |rs| && forall i :: 0 <= i < |rs| ==> keys[i] == KeyString(rs[i])
  {
    seq(|rs|, i requires 0 <= i < |rs| => KeyString(rs[i]))
  }

  ghost predicate LastAt(keys: seq<string>, key: string, i: nat)
  {
    i < |keys| && keys[i] == key && forall j :: i < j < |keys| ==> keys[j] != key
  }

  lemma LastInFront(keys: seq<string>, key: string, i: nat)
    requires keys != [] && keys[|keys| - 1] != key
    ensures LastAt(keys, key, i) <==> LastAt(keys[..|keys| - 1], key, i)
  {
    var front := keys[..|keys| - 1];
    assert forall j :: 0 <= j < |front| ==> front[j] == keys[j];
  }

  lemma {:induction false} SomeIsLast(keys: seq<string>, k: nat) returns (i: nat)
    requires k < |keys|
    ensures LastAt(keys, keys[k], i)
    decreases |keys|
  {
    var n := |keys| - 1;
    if keys[n] == keys[k] {
      i := n;
    } else {
      i := SomeIsLast(keys[..n], k);
      LastInFront(keys, keys[k], i);
    }
  }

  ghost function Stored(keys: seq<string>, rs: seq<Route>): (out: Routes)
    requires |keys| == |rs|
  {
    if rs == [] then map[]
    else Stored(keys[..|rs| - 1], rs[..|rs| - 1])[keys[|rs| - 1] := rs[|rs| - 1]]
  }

  lemma {:induction false} AddedIsStored(rs: seq<Route>)
    ensures Added(map[], rs) == Stored(Texts(rs), rs)
  {
    if rs != [] {
      AddedIsStored(rs[..|rs| - 1]);
      assert Texts(rs)[..|rs| - 1] == Texts(rs[..|rs| - 1]);
    }
  }

  lemma {:induction false} LastIsStored(keys: seq<string>, rs: seq<Route>, key: string)
    requires |keys| == |rs|
    ensures key in Stored(keys, rs) <==> exists i: nat :: LastAt(keys, key, i)
    ensures forall i: nat :: LastAt(keys, key, i) ==> Stored(keys, rs)[key] == rs[i]
  {
    if rs != [] {
      var n: nat := |rs| - 1;
      LastIsStored(keys[..n], rs[..n], key);
      if keys[n] == key {
        assert LastAt(keys, key, n);
      } else {
        forall i: nat
          ensures LastAt(keys, key, i) <==> LastAt(keys[..n], key, i)
        {
          LastInFront(keys, key, i);
        }
      }
    }
  }

  /** A text is taken exactly when a route has it, and then by the last such route. */
  lemma LastOneStays(rs: seq<Route>, key: string)
    ensures key in Added(map[], rs) <==> exists i: nat :: LastAt(Texts(rs), key, i)
    ensures forall i: nat :: LastAt(Texts(rs), key, i) ==> Added(map[], rs)[key] == rs[i]
  {
    AddedIsStored(rs);
    LastIsStored(Texts(rs), rs, key);
  }

  /** If routes with the same text are the same, each route has its place. */
  lemma NothingIsLost(rs: seq<Route>, r: Route)
    requires Agree(rs) && r in rs
    ensures KeyString(r) in Added(map[], rs) && Added(map[], rs)[KeyString(r)] == r
  {
    LastOneStays(rs, KeyString(r));
    var k :| 0 <= k < |rs| && rs[k] == r;
    var i := SomeIsLast(Texts(rs), k);
    assert rs[i] in rs;
  }

  /** Then the order in which routes are added does not matter ... */
  lemma AnyOrder(rs: seq<Route>, ss: seq<Route>)
    requires Agree(rs) && multiset(rs) == multiset(ss)
    ensures Added(map[], rs) == Added(map[], ss)
  {
    assert forall r :: r in ss <==> r in multiset(ss);
    assert forall r :: r in rs <==> r in multiset(rs);
    assert Agree(ss);
    forall key
      ensures key in Added(map[], rs) ==> key in Added(map[], ss) && Added(map[], ss)[key] == Added(map[], rs)[key]
      ensures key in Added(map[], ss) ==> key in Added(map[], rs)
    {
      if key in Added(map[], rs) {
        HasItsPlace(rs, ss, key);
      }
      if key in Added(map[], ss) {
        HasItsPlace(ss, rs, key);
      }
    }
  }

  lemma HasItsPlace(rs: seq<Route>, ss: seq<Route>, key: string)
    requires Agree(ss) && (forall r :: r in rs ==> r in ss) && key in Added(map[], rs)
    ensures key in Added(map[], ss) && Added(map[], ss)[key] == Added(map[], rs)[key]
  {
    LastOneStays(rs, key);
    var i: nat :| LastAt(Texts(rs), key, i);
    assert rs[i] in rs;
    NothingIsLost(ss, rs[i]);
  }

  /** ... and otherwise it does: the routes of a host are a function of the routes that are
      added, in whatever order, if and only if routes with the same text are the same. */
  lemma OrderMatters(rs: seq<Route>)
    ensures Agree(rs) <==>
            forall s, t :: multiset(s) == multiset(rs) && multiset(t) == multiset(rs) ==>
                Added(map[], s) == Added(map[], t)
  {
    if Agree(rs) {
      forall s, t | multiset(s) == multiset(rs) && multiset(t) == multiset(rs)
        ensures Added(map[], s) == Added(map[], t)
      {
        AnyOrder(rs, s);
        AnyOrder(rs, t);
      }
    } else {
      var a, b :| a in rs && b in rs && KeyString(a) == KeyString(b) && a != b;
      var s, t := TwoOrders(rs, a, b);
      assert Added(map[], s)[KeyString(b)] == b;
      assert Added(map[], t)[KeyString(a)] == a;
    }
  }

  lemma TwoOrders(rs: seq<Route>, a: Route, b: Route) returns (s: seq<Route>, t: seq<Route>)
    requires a in rs && b in rs && a != b
    ensures multiset(s) == multiset(rs) == multiset(t)
    ensures |s| > 0 && s[|s| - 1] == b && |t| > 0 && t[|t| - 1] == a
  {
    s := MoveToEnd(rs, b);
    t := MoveToEnd(rs, a);
  }

  lemma MoveToEnd(rs: seq<Route>, a: Route) returns (s: seq<Route>)
    requires a in rs
    ensures multiset(s) == multiset(rs) && |s| > 0 && s[|s| - 1] == a
  {
    var i :| 0 <= i < |rs| && rs[i] == a;
    s := rs[..i] + rs[i + 1..] + [a];
    assert rs == rs[..i] + [a] + rs[i + 1..];
  }

  /** Without header matches the text determines the prefix. */
  lemma TextOfPrefix(p: string, q: string, r: Route, s: Route)
    requires r.path == Prefix(p, StringPrefix) && s.path == Prefix(q, StringPrefix) && r.headers == []
    requires s.headers == []
    ensures KeyString(r) == KeyString(s) <==> p == q
  {
    var a, b := "prefix: ", " type: string";
    assert PathString(r.path) == a + p + b && PathString(s.path) == a + q + b;
    assert (a + p + b)[|a|..|a| + |p|] == p;
    assert (a + q + b)[|a|..|a| + |q|] == q;
    assert KeyString(r) == PathString(r.path) && KeyString(s) == PathString(s.path);
  }
}
