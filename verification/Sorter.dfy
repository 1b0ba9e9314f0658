/** The order of routes in a virtual host (internal/sorter/sorter.go). Envoy takes
    the first route that matches, so this order decides where a request goes. */
module Sorter {
  import opened Text
  import opened Dag

  // ----- header conditions --------------------------------------------------------

  predicate ValueLess(a: HeaderMatch, b: HeaderMatch)
  {
    var c := Compare(a.value, b.value);
    if c == -1 then true else if c == 1 then false else !a.invert
  }

  /** Exact before regex before contains before present. */
  function TypeRank(t: HeaderMatchType): (n: nat)
  {
    match t
    case MatchExact => 0
    case MatchRegex => 1
    case MatchContains => 2
    case MatchPresent => 3
  }

  predicate HeaderLess(a: HeaderMatch, b: HeaderMatch)
  {
    var c := Compare(a.name, b.name);
    if c == -1 then true
    else if c == 1 then false
    else if a.matchType == MatchPresent then b.matchType == MatchPresent && !a.invert
    else if a.matchType == b.matchType then ValueLess(a, b)
    else TypeRank(a.matchType) < TypeRank(b.matchType)
  }

  /** One kind of match comes before another: exact, then regular expression, then contains, then
      present. */
  predicate KindPrecedes(a: HeaderMatchType, b: HeaderMatchType)
  {
    match a
    case MatchExact => b != MatchExact
    case MatchRegex => b == MatchContains || b == MatchPresent
    case MatchContains => b == MatchPresent
    case MatchPresent => false
  }

  /** Header matches are ordered by name, then by kind, then by value; and of two that agree in all
      of these, the first is less exactly if it is not inverted. */
  lemma HeaderLessWhen(a: HeaderMatch, b: HeaderMatch)
    ensures HeaderLess(a, b) <==>
            || Precedes(a.name, b.name)
            || (&& a.name == b.name
                && (|| KindPrecedes(a.matchType, b.matchType)
                    || (&& a.matchType == b.matchType && a.matchType != MatchPresent
                        && (Precedes(a.value, b.value) || (a.value == b.value && !a.invert)))
                    || (a.matchType == MatchPresent && b.matchType == MatchPresent && !a.invert)))
  {
    CompareMeaning(a.name, b.name);
    CompareEqual(a.name, b.name);
    CompareMeaning(a.value, b.value);
    CompareEqual(a.value, b.value);
  }

  /** More header conditions sort first; with equally many, some position decides. */
  ghost predicate LongestByHeaders(lhs: seq<HeaderMatch>, rhs: seq<HeaderMatch>)
  {
    || |lhs| > |rhs|
    || (|lhs| == |rhs| && exists i :: 0 <= i < |lhs| && HeaderLess(lhs[i], rhs[i]))
  }

  method LongestRouteByHeaderConditions(lhs: Route, rhs: Route) returns (less: bool)
    ensures less <==> LongestByHeaders(lhs.headers, rhs.headers)
  {
    if |lhs.headers| == |rhs.headers| {
      var pair := new HeaderMatch[2](_ => HeaderMatch("", "", MatchExact, false));
      for i := 0 to |lhs.headers|
        invariant forall k :: 0 <= k < i ==> !HeaderLess(lhs.headers[k], rhs.headers[k])
      {
        pair[0] := lhs.headers[i];
        pair[1] := rhs.headers[i];
        if HeaderLess(pair[0], pair[1]) {
          return true;
        }
      }
    }
    return |lhs.headers| > |rhs.headers|;
  }

  // ----- routes -----------------------------------------------------------------------

  /** routeSorter.Less, branch for branch. */
  ghost predicate RouteLess(a: Route, b: Route)
  {
    match a.path
    case Prefix(p, kind) =>
      (match b.path
       case Prefix(q, otherKind) =>
         var c := Compare(p, q);
         if c == 1 then true
         else if c == -1 then false
         else if kind == otherKind then LongestByHeaders(a.headers, b.headers)
         else kind == SegmentPrefix
       case _ => false)
    case Regex(re) =>
      (match b.path
       case Regex(other) =>
         var c := Compare(re, other);
         if c == 1 then true else if c == -1 then false else LongestByHeaders(a.headers, b.headers)
       case Prefix(_, _) => true
       case Exact(_) => false)
    case Exact(p) =>
      (match b.path
       case Exact(other) =>
         var c := Compare(p, other);
         if c == 1 then true else if c == -1 then false else LongestByHeaders(a.headers, b.headers)
       case _ => true)
  }

  /** The order on paths alone: by kind of match, then by text in reverse, then whole
      segments before plain strings. */
  predicate PathLess(a: PathMatch, b: PathMatch)
  {
    || KindRank(a) < KindRank(b)
    || (KindRank(a) == KindRank(b)
        && (|| Compare(PathText(a), PathText(b)) == 1
            || (PathText(a) == PathText(b) && IsSegment(a) && !IsSegment(b))))
  }

  function KindRank(m: PathMatch): (n: nat)
  {
    match m case Exact(_) => 0 case Regex(_) => 1 case Prefix(_, _) => 2
  }

  function PathText(m: PathMatch): (s: string)
  {
    match m case Exact(p) => p case Regex(re) => re case Prefix(p, _) => p
  }

  predicate IsSegment(m: PathMatch)
  {
    m.Prefix? && m.kind == SegmentPrefix
  }

  /** Paths decide first; headers only break ties between equal paths. */
  lemma RouteLessByKey(a: Route, b: Route)
    ensures RouteLess(a, b) <==>
            PathLess(a.path, b.path) || (a.path == b.path && LongestByHeaders(a.headers, b.headers))
  {
    CompareEqual(PathText(a.path), PathText(b.path));
  }

  // ----- the order on paths is a strict total order --------------------------------------

  lemma PathLessIrreflexive(a: PathMatch)
    ensures !PathLess(a, a)
  {
    CompareEqual(PathText(a), PathText(a));
  }

  lemma PathLessAsymmetric(a: PathMatch, b: PathMatch)
    ensures !(PathLess(a, b) && PathLess(b, a))
  {
    CompareAntisymmetric(PathText(a), PathText(b));
    CompareEqual(PathText(a), PathText(b));
    CompareEqual(PathText(b), PathText(a));
  }

  lemma PathLessTransitive(a: PathMatch, b: PathMatch, c: PathMatch)
    requires PathLess(a, b) && PathLess(b, c)
    ensures PathLess(a, c)
  {
    if KindRank(a) == KindRank(b) == KindRank(c)
       && Compare(PathText(a), PathText(b)) == 1 && Compare(PathText(b), PathText(c)) == 1 {
      CompareTransitive(PathText(a), PathText(b), PathText(c));
    }
  }

  lemma PathLessTotal(a: PathMatch, b: PathMatch)
    ensures PathLess(a, b) || PathLess(b, a) || a == b
  {
    CompareAntisymmetric(PathText(a), PathText(b));
    CompareEqual(PathText(a), PathText(b));
  }

  /** Less orders header-free routes, and routes whose numbers of header conditions
      differ, strictly and totally: by path, then by number of header conditions. */
  predicate KeyLess(a: Route, b: Route)
  {
    PathLess(a.path, b.path) || (a.path == b.path && |a.headers| > |b.headers|)
  }

  lemma LessIsKeyLess(a: Route, b: Route)
    requires a.path != b.path || |a.headers| != |b.headers| || a.headers == b.headers == []
    ensures RouteLess(a, b) <==> KeyLess(a, b)
  {
    RouteLessByKey(a, b);
  }

  lemma KeyLessIsStrictWeakOrder(a: Route, b: Route, c: Route)
    ensures !KeyLess(a, a)
    ensures !(KeyLess(a, b) && KeyLess(b, a))
    ensures KeyLess(a, b) && KeyLess(b, c) ==> KeyLess(a, c)
    ensures !KeyLess(a, b) && !KeyLess(b, a) <==> a.path == b.path && |a.headers| == |b.headers|
  {
    PathLessIrreflexive(a.path);
    PathLessAsymmetric(a.path, b.path);
    PathLessTotal(a.path, b.path);
    if PathLess(a.path, b.path) && PathLess(b.path, c.path) {
      PathLessTransitive(a.path, b.path, c.path);
    }
  }

  /** Elsewhere Less is not an order. A route precedes itself exactly when one of its
      header conditions is not inverted. */
  lemma LessIsReflexiveWhen(r: Route)
    ensures RouteLess(r, r) <==> exists i :: 0 <= i < |r.headers| && !r.headers[i].invert
  {
    RouteLessByKey(r, r);
    PathLessIrreflexive(r.path);
    forall i | 0 <= i < |r.headers|
      ensures HeaderLess(r.headers[i], r.headers[i]) <==> !r.headers[i].invert
    {
      CompareEqual(r.headers[i].name, r.headers[i].name);
      CompareEqual(r.headers[i].value, r.headers[i].value);
    }
  }

  // ----- first match is longest match ------------------------------------------------------

  /** What a sort leaves behind: nothing precedes anything that comes before it. */
  ghost predicate Sorted(routes: seq<Route>)
  {
    forall i, j :: 0 <= i < j < |routes| ==> !RouteLess(routes[j], routes[i])
  }

  /** The same for paths alone, whatever the order of routes with the same path. */
  ghost predicate SortedByPath(routes: seq<Route>)
  {
    forall i, j :: 0 <= i < j < |routes| ==> !PathLess(routes[j].path, routes[i].path)
  }

  /** Paths are compared before headers. */
  lemma SortedIsSortedByPath(routes: seq<Route>)
    requires Sorted(routes)
    ensures SortedByPath(routes)
  {
    forall i, j | 0 <= i < j < |routes|
      ensures !PathLess(routes[j].path, routes[i].path)
    {
      RouteLessByKey(routes[j], routes[i]);
    }
  }

  /** A request: its path, and which header matches it satisfies. Nothing is assumed about
      either header matching or regular expressions. */
  datatype Request = Request(path: string, headersMatch: seq<HeaderMatch> -> bool,
                             regexMatches: (string, string) -> bool)

  ghost predicate Takes(r: Route, q: Request)
  {
    Matches(r.path, q.path, q.regexMatches) && q.headersMatch(r.headers)
  }

  /** Position k holds the first route that takes the request. */
  ghost predicate FirstMatch(routes: seq<Route>, q: Request, k: nat)
  {
    && k < |routes| && Takes(routes[k], q)
    && forall i :: 0 <= i < k ==> !Takes(routes[i], q)
  }

  lemma PrefixMatchIsPrefix(m: PathMatch, path: string, regexMatches: (string, string) -> bool)
    requires m.Prefix? && Matches(m, path, regexMatches)
    ensures m.prefix <= path
  {
  }

  /** The first route that takes a request is the most specific one: an exact route if any
      takes it, else a regular expression if any does, else the longest prefix, and among
      equal prefixes one that matches whole segments. */
  lemma FirstMatchIsLongest(routes: seq<Route>, q: Request, k: nat, j: nat)
    requires SortedByPath(routes) && FirstMatch(routes, q, k)
    requires j < |routes| && Takes(routes[j], q)
    ensures KindRank(routes[k].path) <= KindRank(routes[j].path)
    ensures routes[k].path.Prefix? && routes[j].path.Prefix? ==>
              && |routes[j].path.prefix| <= |routes[k].path.prefix|
              && (|routes[j].path.prefix| == |routes[k].path.prefix| ==>
                    && routes[j].path.prefix == routes[k].path.prefix
                    && (IsSegment(routes[j].path) ==> IsSegment(routes[k].path)))
  {
    var first, other := routes[k].path, routes[j].path;
    assert k <= j;
    if k < j && first.Prefix? && other.Prefix? {
      PrefixMatchIsPrefix(first, q.path, q.regexMatches);
      PrefixMatchIsPrefix(other, q.path, q.regexMatches);
      ComparePrefixes(other.prefix, first.prefix, q.path);
      CompareEqual(other.prefix, first.prefix);
    }
  }
}
