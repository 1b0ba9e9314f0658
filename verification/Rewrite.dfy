/** Path rewriting from the user's prefix and replacement to the path that the
    upstream sees: expansion, sorting, first match and prefix swap together. */
module Rewrite {
  import opened Text
  import opened Dag
  import opened Sorter
  import opened Expansion

  /** What a user means by replacing a prefix: drop it, put the replacement without its
      trailing slashes in its place, and never lose the leading slash. */
  function Intended(base: string, replacement: string, path: string): (out: string)
    requires base <= path
  {
    var trimmed, rest := TrimRight(replacement), path[|base|..];
    if trimmed == "" && (rest == "" || rest[0] != '/') then "/" + rest else trimmed + rest
  }

  /** No slash is doubled where the replacement meets the rest of the path, and what
      follows the seam is the rest of the path. */
  lemma SeamHasNoDoubleSlash(base: string, replacement: string, path: string)
    requires base <= path
    ensures var out := Intended(base, replacement, path);
            var seam := |out| - (|path| - |base|);
            && 0 <= seam && out[seam..] == path[|base|..]
            && (0 < seam < |out| ==> !(out[seam - 1] == '/' && out[seam] == '/'))
  {
  }

  /** The form that the table finds for a path below the base. */
  function Chosen(r: Route, path: string): (c: Route)
    requires IsPrefixRoute(r)
  {
    if KeyOf(r) + "/" <= path then LongForm(r) else ShortForm(r)
  }

  lemma SlashMoves(base: string, trimmed: string, path: string)
    requires base + "/" <= path
    ensures var rest := path[|base|..];
            rest != "" && rest[0] == '/' && trimmed + "/" + path[|base + "/"|..] == trimmed + rest
  {
    assert path[|base|] == (base + "/")[|base|];
    assert path[|base|..] == "/" + path[|base| + 1..];
    Regroup(trimmed, "/", path[|base| + 1..]);
  }

  /** A base without the slash is followed by no slash. */
  lemma NoSlashFollows(base: string, path: string)
    requires base <= path && !(base + "/" <= path)
    ensures path[|base|..] == "" || path[|base|..][0] != '/'
  {
    assert |base| < |path| && path[|base|] == '/' ==> base + "/" <= path;
  }

  lemma ChosenRewritesAsIntended(r: Route, path: string)
    requires IsPrefixRoute(r) && KeyOf(r) <= path
    ensures Chosen(r, path).path.prefix <= path
    ensures Rewritten(Chosen(r, path), path) == Intended(KeyOf(r), r.rewrite, path)
  {
    var base := KeyOf(r);
    if base + "/" <= path {
      SlashMoves(base, TrimRight(r.rewrite), path);
    } else {
      NoSlashFollows(base, path);
    }
  }

  /** The two forms of a route sort with the longer one first, whatever its headers. */
  lemma LongFormFirst(r: Route)
    requires IsPrefixRoute(r)
    ensures RouteLess(LongForm(r), ShortForm(r)) && !RouteLess(ShortForm(r), LongForm(r))
  {
    var base := KeyOf(r);
    assert base <= base + "/";
    ComparePrefixes(base + "/", base, base + "/");
    ComparePrefixes(base, base + "/", base + "/");
  }

  /** With and without a trailing slash on prefix and replacement: one result. */
  lemma SpellingsAgree(r: Route, base: string, replacement: string, prefix: string, rewrite: string)
    requires SlashNormal(base) && base != "/" && base[|base| - 1] != '/'
    requires prefix == base || prefix == base + "/"
    requires replacement != "" && (rewrite == replacement || rewrite == replacement + "/")
    ensures Forms(r.(path := Prefix(prefix, StringPrefix), rewrite := rewrite), true) ==
            Forms(r.(path := Prefix(base, StringPrefix), rewrite := replacement), true)
  {
    TrimRightSlash(base);
    TrimRightSlash(replacement);
    assert base + "/" != "/";
  }

  // ----- inside a whole table -----------------------------------------------------------

  /** Routes as the compiler makes them: plain string prefixes in normal form. */
  ghost predicate IsPlain(r: Route)
  {
    IsPrefixRoute(r) && r.path.kind == StringPrefix && SlashNormal(r.path.prefix)
  }

  ghost predicate AllPlain(routes: seq<Route>)
  {
    forall i :: 0 <= i < |routes| ==> IsPlain(routes[i])
  }

  /** The forms of a plain route are plain, with its key and its headers. */
  lemma FormsArePlain(r: Route, lone: bool, form: Route)
    requires IsPlain(r) && form in Forms(r, lone)
    ensures IsPlain(form) && KeyOf(form) == KeyOf(r) && form.headers == r.headers
  {
    if r.path.prefix != "/" {
      KeyIsNormal(r.path.prefix);
    }
  }

  /** Of the forms of r that match, the one that is at least as long as the chosen one
      is the chosen one. */
  lemma LongestFormIsChosen(r: Route, form: Route, path: string)
    requires Splits(r, true) && form in Forms(r, true)
    requires form.path.prefix <= path && |form.path.prefix| >= |Chosen(r, path).path.prefix|
    ensures form == Chosen(r, path)
  {
  }

  /** A route of the table matches what the form matches: it has its path and its headers. */
  ghost predicate IsMatched(table: seq<Route>, form: Route)
  {
    exists c :: 0 <= c < |table| && table[c].path == form.path && table[c].headers == form.headers
  }

  /** Whatever answers: if the first match is a form of a route that was split, and what the
      other form matches is matched as well, then the matched prefix is swapped as its user
      intended. What else is in the table does not matter. */
  lemma TableRewritesAsIntended(table: seq<Route>, r: Route, q: Request, k: nat)
    requires SortedByPath(table) && FirstMatch(table, q, k)
    requires Splits(r, true) && table[k] in Forms(r, true)
    requires forall form :: form in Forms(r, true) ==> IsMatched(table, form)
    ensures table[k] == Chosen(r, q.path) && table[k].path.prefix <= q.path && KeyOf(r) <= q.path
    ensures Rewritten(table[k], q.path) == Intended(KeyOf(r), r.rewrite, q.path)
  {
    var chosen := Chosen(r, q.path);
    assert chosen in Forms(r, true);
    var c :| 0 <= c < |table| && table[c].path == chosen.path && table[c].headers == chosen.headers;
    assert KeyOf(r) <= table[k].path.prefix;
    FirstMatchIsLongest(table, q, k, c);
    LongestFormIsChosen(r, table[k], q.path);
    ChosenRewritesAsIntended(r, q.path);
  }

  /** A route with a shorter key than the base is shorter than the base: if it were one
      character longer than its key it would end in a slash. */
  lemma ShorterKeyIsShorter(s: Route, base: string, path: string)
    requires IsPlain(s) && s.path.prefix <= path
    requires base <= path && SlashNormal(base) && base != "/" && base[|base| - 1] != '/'
    requires |KeyOf(s)| < |base|
    ensures |s.path.prefix| < |base|
  {
    if s.path.prefix == "/" {
      assert |base| >= 2;
    } else {
      KeyIsNormal(s.path.prefix);
      assert path[|base| - 1] == base[|base| - 1];
      assert path[|s.path.prefix| - 1] == s.path.prefix[|s.path.prefix| - 1];
    }
  }

  /** The path is below the base of a route, the request has its headers, and every other
      route of the table that these headers allow and whose key the path starts with has
      a shorter key. */
  ghost predicate LongestKey(table: seq<Route>, r: Route, q: Request)
    requires IsPrefixRoute(r) && AllPlain(table)
  {
    && KeyOf(r) <= q.path && q.headersMatch(r.headers)
    && forall i :: 0 <= i < |table| && table[i] !in Forms(r, true)
                   && KeyOf(table[i]) <= q.path && q.headersMatch(table[i].headers) ==>
         |KeyOf(table[i])| < |KeyOf(r)|
  }

  /** Which route answers: one with the longest key. */
  lemma LongestKeyAnswers(table: seq<Route>, r: Route, q: Request, k: nat)
    requires AllPlain(table) && SortedByPath(table) && IsPlain(r) && Splits(r, true)
    requires Chosen(r, q.path) in table && LongestKey(table, r, q) && FirstMatch(table, q, k)
    ensures table[k] in Forms(r, true)
  {
    KeyIsNormal(r.path.prefix);
    var c :| 0 <= c < |table| && table[c] == Chosen(r, q.path);
    FirstMatchIsLongest(table, q, k, c);
    KeyIsPrefix(table[k]);
    if table[k] !in Forms(r, true) {
      ShorterKeyIsShorter(table[k], KeyOf(r), q.path);
    }
  }

  lemma KeyIsPrefix(r: Route)
    requires IsPrefixRoute(r)
    ensures KeyOf(r) <= r.path.prefix
  {
  }
}
