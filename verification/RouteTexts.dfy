/** The texts under which the routes of a virtual host are kept tell routes apart whose prefixes,
    header names and header values have no separators in them (internal/dag/dag.go). */
module RouteTexts {
  import opened Dag
  import opened VirtualHosts

  predicate CleanHeader(h: HeaderMatch)
  {
    ',' !in h.name && ',' !in h.value && '&' !in h.name && '&' !in h.value
  }

  function PathOf(m: PathMatch): (s: string)
  {
    match m case Prefix(p, _) => p case Regex(re) => re case Exact(p) => p
  }

  ghost predicate CleanHeaders(hs: seq<HeaderMatch>)
  {
    forall i :: 0 <= i < |hs| ==> CleanHeader(hs[i])
  }

  /** Neither the path of a route nor its header matches have the separators in them. */
  ghost predicate IsClean(r: Route)
  {
    ',' !in PathOf(r.path) && CleanHeaders(r.headers)
  }

  // ----- splitting at a separator ----------------------------------------------------------------

  /** Of two ways to split a text at a separator, the shorter first part leaves one in the rest. */
  lemma SeparatorIsLater(x: string, a: string, y: string, b: string, sep: char)
    requires x + [sep] + a == y + [sep] + b && |x| < |y|
    ensures sep in a && sep in y
  {
    var t, u := x + [sep] + a, y + [sep] + b;
    assert t[|x|] == sep && u[|y|] == sep;
    assert a[|y| - |x| - 1] == t[|y|];
    assert y[|x|] == u[|x|];
  }

  lemma SplitLast(x: string, a: string, y: string, b: string, sep: char)
    requires x + [sep] + a == y + [sep] + b && sep !in a && sep !in b
    ensures x == y && a == b
  {
    if |x| < |y| {
      SeparatorIsLater(x, a, y, b, sep);
    } else if |y| < |x| {
      SeparatorIsLater(y, b, x, a, sep);
    } else {
      SplitEven(x, a, y, b, sep);
    }
  }

  lemma SplitFirst(x: string, a: string, y: string, b: string, sep: char)
    requires x + [sep] + a == y + [sep] + b && sep !in x && sep !in y
    ensures x == y && a == b
  {
    if |x| < |y| {
      SeparatorIsLater(x, a, y, b, sep);
    } else if |y| < |x| {
      SeparatorIsLater(y, b, x, a, sep);
    } else {
      SplitEven(x, a, y, b, sep);
    }
  }

  lemma SplitEven(x: string, a: string, y: string, b: string, sep: char)
    requires x + [sep] + a == y + [sep] + b && |x| == |y|
    ensures x == y && a == b
  {
    var t, u := x + [sep] + a, y + [sep] + b;
    assert t[..|x|] == x && u[..|y|] == y;
    assert t[|x| + 1..] == a && u[|y| + 1..] == b;
  }

  // ----- header texts ------------------------------------------------------------------------------

  const NAME := "header: name="
  const VALUE := "value="
  const TYPE := "matchtype=&"
  const INVERT := "invert=&"

  function InvertString(b: bool): (s: string)
  {
    if b then "true" else "false"
  }

  /** The text of a header match, split at the separators between its parts. */
  lemma HeaderParts(h: HeaderMatch)
    ensures HeaderString(h) == (NAME + h.name) + "&" + ((VALUE + h.value) + "&" + (TYPE + TypeString(h.matchType) + "&"
                                                                                  + (INVERT + InvertString(h.invert))))
  {
    var t, b := TypeString(h.matchType), InvertString(h.invert);
    assert "&value=" == "&" + VALUE && "&matchtype=&" == "&" + TYPE && "&invert=&" == "&" + INVERT;
    assert HeaderString(h) == NAME + h.name + ("&" + VALUE) + h.value + ("&" + TYPE) + t + ("&" + INVERT) + b;
    RegroupParts(NAME + h.name, VALUE, h.value, TYPE, t, INVERT, b);
  }

  lemma RegroupParts(n: string, v: string, value: string, ty: string, t: string, inv: string, b: string)
    ensures n + ("&" + v) + value + ("&" + ty) + t + ("&" + inv) + b ==
            n + "&" + ((v + value) + "&" + (ty + t + "&" + (inv + b)))
  {
  }

  lemma TypesDiffer(a: HeaderMatchType, b: HeaderMatchType)
    requires TypeString(a) == TypeString(b)
    ensures a == b
  {
    assert "exact"[0] != "regex"[0];
  }

  lemma InversionsDiffer(a: bool, b: bool)
    requires InvertString(a) == InvertString(b)
    ensures a == b
  {
    assert |"true"| != |"false"|;
  }

  lemma SameRest(a: string, x: string, y: string)
    requires a + x == a + y
    ensures x == y
  {
    assert (a + x)[|a|..] == x && (a + y)[|a|..] == y;
  }

  lemma HeaderTextsTell(h: HeaderMatch, k: HeaderMatch)
    requires CleanHeader(h) && CleanHeader(k) && HeaderString(h) == HeaderString(k)
    ensures h == k
  {
    HeaderParts(h);
    HeaderParts(k);
    var s, t := TYPE + TypeString(h.matchType) + "&" + (INVERT + InvertString(h.invert)),
                TYPE + TypeString(k.matchType) + "&" + (INVERT + InvertString(k.invert));
    SplitFirst(NAME + h.name, (VALUE + h.value) + "&" + s, NAME + k.name, (VALUE + k.value) + "&" + t, '&');
    SplitFirst(VALUE + h.value, s, VALUE + k.value, t, '&');
    SameRest(NAME, h.name, k.name);
    SameRest(VALUE, h.value, k.value);
    LastPartsTell(h, k);
  }

  lemma LastPartsTell(h: HeaderMatch, k: HeaderMatch)
    requires TYPE + TypeString(h.matchType) + "&" + (INVERT + InvertString(h.invert)) ==
             TYPE + TypeString(k.matchType) + "&" + (INVERT + InvertString(k.invert))
    ensures h.matchType == k.matchType && h.invert == k.invert
  {
    var a, b := TypeString(h.matchType), TypeString(k.matchType);
    var x, y := INVERT + InvertString(h.invert), INVERT + InvertString(k.invert);
    Regrouped(TYPE, a, x);
    Regrouped(TYPE, b, y);
    SameRest(TYPE, a + "&" + x, b + "&" + y);
    SplitFirst(a, x, b, y, '&');
    SameRest(INVERT, InvertString(h.invert), InvertString(k.invert));
    TypesDiffer(h.matchType, k.matchType);
    InversionsDiffer(h.invert, k.invert);
  }

  lemma Regrouped(a: string, b: string, c: string)
    ensures a + b + "&" + c == a + (b + "&" + c)
  {
  }

  lemma HeaderTextIsClean(h: HeaderMatch)
    requires CleanHeader(h)
    ensures ',' !in HeaderString(h)
  {
  }

  // ----- whole texts --------------------------------------------------------------------------------

  /** Texts in a row, each after a comma. */
  function InRow(ts: seq<string>): (s: string)
  {
    if ts == [] then "" else InRow(ts[..|ts| - 1]) + "," + ts[|ts| - 1]
  }

  ghost predicate NoCommas(ts: seq<string>)
  {
    forall i :: 0 <= i < |ts| ==> ',' !in ts[i]
  }

  lemma RowLast(p: string, ts: seq<string>)
    requires ts != []
    ensures p + InRow(ts) == p + InRow(ts[..|ts| - 1]) + "," + ts[|ts| - 1]
  {
    Reassociate(p, InRow(ts[..|ts| - 1]), ts[|ts| - 1]);
  }

  lemma HasComma(p: string, ts: seq<string>)
    requires ts != []
    ensures ',' in p + InRow(ts)
  {
    RowLast(p, ts);
    var front, t := p + InRow(ts[..|ts| - 1]), ts[|ts| - 1];
    assert (front + "," + t)[|front|] == ',';
  }

  lemma {:induction false} RowsTell(p: string, ts: seq<string>, q: string, us: seq<string>)
    requires ',' !in p && ',' !in q && NoCommas(ts) && NoCommas(us) && p + InRow(ts) == q + InRow(us)
    ensures p == q && ts == us
    decreases |ts|
  {
    if ts == [] || us == [] {
      assert ts == [] ==> p + InRow(ts) == p;
      assert us == [] ==> q + InRow(us) == q;
      if ts != [] {
        HasComma(p, ts);
      } else if us != [] {
        HasComma(q, us);
      }
    } else {
      var f, g, t, u := ts[..|ts| - 1], us[..|us| - 1], ts[|ts| - 1], us[|us| - 1];
      RowLast(p, ts);
      RowLast(q, us);
      SplitLast(p + InRow(f), t, q + InRow(g), u, ',');
      RowsTell(p, f, q, g);
      assert ts == f + [t] && us == g + [u];
    }
  }

  function HeaderTexts(hs: seq<HeaderMatch>): (ts: seq<string>)
    ensures |ts| == |hs| && forall i :: 0 <= i < |hs| ==> ts[i] == HeaderString(hs[i])
  {
    seq(|hs|, i requires 0 <= i < |hs| => HeaderString(hs[i]))
  }

  lemma {:induction false} JoinedIsRow(hs: seq<HeaderMatch>)
    ensures Joined(hs) == InRow(HeaderTexts(hs))
  {
    if hs != [] {
      JoinedIsRow(hs[..|hs| - 1]);
      assert HeaderTexts(hs)[..|hs| - 1] == HeaderTexts(hs[..|hs| - 1]);
    }
  }

  lemma HeaderTextsAreClean(hs: seq<HeaderMatch>)
    requires CleanHeaders(hs)
    ensures NoCommas(HeaderTexts(hs))
  {
    forall i | 0 <= i < |hs|
      ensures ',' !in HeaderTexts(hs)[i]
    {
      HeaderTextIsClean(hs[i]);
    }
  }

  lemma SameHeaders(hs: seq<HeaderMatch>, ks: seq<HeaderMatch>)
    requires CleanHeaders(hs) && CleanHeaders(ks) && HeaderTexts(hs) == HeaderTexts(ks)
    ensures hs == ks
  {
    assert |hs| == |HeaderTexts(hs)| == |ks|;
    forall i | 0 <= i < |hs|
      ensures hs[i] == ks[i]
    {
      assert HeaderTexts(hs)[i] == HeaderTexts(ks)[i];
      HeaderTextsTell(hs[i], ks[i]);
    }
  }

  lemma PathTextIsClean(m: PathMatch)
    requires ',' !in PathOf(m)
    ensures ',' !in PathString(m)
  {
  }

  lemma Between(a: string, p: string, b: string)
    ensures (a + p + b)[|a|..|a + p + b| - |b|] == p
  {
  }

  lemma PathTextsTell(m: PathMatch, n: PathMatch)
    requires PathString(m) == PathString(n)
    ensures m == n
  {
    var s, t := PathString(m), PathString(n);
    assert s[0] == (match m case Prefix(_, _) => 'p' case Regex(_) => 'r' case Exact(_) => 'e');
    assert t[0] == (match n case Prefix(_, _) => 'p' case Regex(_) => 'r' case Exact(_) => 'e');
    match m {
      case Prefix(p, kind) =>
        PrefixTextsTell(m, n);
      case Regex(re) =>
        SameRest("regex: ", re, n.regex);
      case Exact(p) =>
        SameRest("exact: ", p, n.path);
    }
  }

  lemma PrefixTextsTell(m: PathMatch, n: PathMatch)
    requires m.Prefix? && n.Prefix? && PathString(m) == PathString(n)
    ensures m == n
  {
    var s, t := PathString(m), PathString(n);
    assert s[|s| - 1] == if m.kind == StringPrefix then 'g' else 't';
    assert t[|t| - 1] == if n.kind == StringPrefix then 'g' else 't';
    var a, b := "prefix: ", if m.kind == StringPrefix then " type: string" else " type: segment";
    assert s == a + m.prefix + b && t == a + n.prefix + b;
    Between(a, m.prefix, b);
    Between(a, n.prefix, b);
  }

  /** Clean routes are kept under the same text exactly if they match the same requests. */
  lemma CleanTextsTell(r: Route, s: Route)
    requires IsClean(r) && IsClean(s)
    ensures KeyString(r) == KeyString(s) <==> r.path == s.path && r.headers == s.headers
  {
    if KeyString(r) == KeyString(s) {
      PathTextIsClean(r.path);
      PathTextIsClean(s.path);
      JoinedIsRow(r.headers);
      JoinedIsRow(s.headers);
      HeaderTextsAreClean(r.headers);
      HeaderTextsAreClean(s.headers);
      RowsTell(PathString(r.path), HeaderTexts(r.headers), PathString(s.path), HeaderTexts(s.headers));
      SameHeaders(r.headers, s.headers);
      PathTextsTell(r.path, s.path);
    }
  }
}
