/** expandPrefixMatches (internal/dag/httpproxy_processor.go): a route that rewrites
    its prefix is split into one route for the prefix without and one with a trailing
    slash, unless the user already routes on both. */
module Expansion {
  import opened Text
  import opened Dag

  /** The slash-consistent form of a prefix, by which routes are grouped. */
  function GroupKey(prefix: string): (k: string)
  {
    if prefix == "/" then "/" else TrimRight(prefix)
  }

  predicate IsPrefixRoute(r: Route)
  {
    r.path.Prefix?
  }

  function KeyOf(r: Route): (k: string)
    requires IsPrefixRoute(r)
  {
    GroupKey(r.path.prefix)
  }

  /** Every route has a prefix; expandPrefixMatches panics on any other route. */
  ghost predicate AllPrefix(s: seq<Route>)
  {
    forall i :: 0 <= i < |s| ==> IsPrefixRoute(s[i])
  }

  /** The route for the prefix without a trailing slash. There is no such thing as an
      empty replacement: it becomes the root path. */
  function ShortForm(r: Route): (short: Route)
    requires IsPrefixRoute(r)
  {
    var trimmed := TrimRight(r.rewrite);
    r.(path := Prefix(KeyOf(r), StringPrefix), rewrite := if trimmed == "" then "/" else trimmed)
  }

  /** The route for the prefix with a trailing slash. */
  function LongForm(r: Route): (long: Route)
    requires IsPrefixRoute(r)
  {
    r.(path := Prefix(KeyOf(r) + "/", StringPrefix), rewrite := TrimRight(r.rewrite) + "/")
  }

  predicate Splits(r: Route, lone: bool)
  {
    IsPrefixRoute(r) && lone && r.rewrite != "" && r.path.prefix != "/"
  }

  function Forms(r: Route, lone: bool): (forms: seq<Route>)
    requires IsPrefixRoute(r)
    ensures AllPrefix(forms)
  {
    if Splits(r, lone) then [ShortForm(r), LongForm(r)] else [r]
  }

  /** How many routes of s are in the group of key k. */
  function GroupSize(s: seq<Route>, k: string): (n: nat)
    requires AllPrefix(s)
  {
    if s == [] then 0 else (if KeyOf(s[0]) == k then 1 else 0) + GroupSize(s[1..], k)
  }

  predicate Lone(r: Route, context: seq<Route>)
    requires IsPrefixRoute(r) && AllPrefix(context)
  {
    GroupSize(context, KeyOf(r)) == 1
  }

  /** The routes of s, each in its final form given all the routes of the context. */
  function ExpandIn(s: seq<Route>, context: seq<Route>): (out: seq<Route>)
    requires AllPrefix(s) && AllPrefix(context)
    ensures AllPrefix(out)
  {
    if s == [] then [] else Forms(s[0], Lone(s[0], context)) + ExpandIn(s[1..], context)
  }

  /** The expansion of a list of routes. */
  function Expand(s: seq<Route>): (out: seq<Route>)
    requires AllPrefix(s)
    ensures AllPrefix(out)
  {
    ExpandIn(s, s)
  }

  // ----- when a route is alone -----------------------------------------------------------

  /** Two prefixes name the same place: they differ in trailing slashes only, and the root path is
      a place of its own. */
  predicate SamePlace(p: string, q: string)
  {
    (p == "/" <==> q == "/") && (p != "/" ==> TrimRight(p) == TrimRight(q))
  }

  /** Position i of the routes, and no other, is at the place. */
  ghost predicate OnlyAt(s: seq<Route>, place: string, i: nat)
    requires AllPrefix(s)
  {
    && i < |s| && SamePlace(s[i].path.prefix, place)
    && forall j :: 0 <= j < |s| && j != i ==> !SamePlace(s[j].path.prefix, place)
  }

  /** Exactly one of the routes is at the place. */
  ghost predicate OnlyOne(s: seq<Route>, place: string)
    requires AllPrefix(s)
  {
    exists i: nat :: OnlyAt(s, place, i)
  }

  lemma TrimmedIsNotRoot(p: string)
    ensures p != "/" ==> TrimRight(p) != "/"
  {
  }

  lemma SamePlaceIs(p: string, q: string)
    ensures SamePlace(p, q) <==> GroupKey(p) == GroupKey(q)
  {
    TrimmedIsNotRoot(p);
    TrimmedIsNotRoot(q);
  }

  lemma {:induction false} NoneAtPlace(s: seq<Route>, place: string)
    requires AllPrefix(s)
    ensures GroupSize(s, GroupKey(place)) == 0 <==> forall i :: 0 <= i < |s| ==> !SamePlace(s[i].path.prefix, place)
  {
    if s != [] {
      var rest := s[1..];
      SamePlaceIs(s[0].path.prefix, place);
      NoneAtPlace(rest, place);
      assert forall i :: 1 <= i < |s| ==> s[i] == rest[i - 1];
      assert forall i :: 0 <= i < |rest| ==> rest[i] == s[i + 1];
    }
  }

  lemma {:induction false} OneAtPlace(s: seq<Route>, place: string)
    requires AllPrefix(s)
    ensures GroupSize(s, GroupKey(place)) == 1 <==> exists i: nat :: OnlyAt(s, place, i)
  {
    if s != [] {
      var rest := s[1..];
      SamePlaceIs(s[0].path.prefix, place);
      assert forall i :: 1 <= i < |s| ==> s[i] == rest[i - 1];
      assert forall i :: 0 <= i < |rest| ==> rest[i] == s[i + 1];
      if SamePlace(s[0].path.prefix, place) {
        NoneAtPlace(rest, place);
        FirstAtPlace(s, place);
      } else {
        OneAtPlace(rest, place);
        LaterAtPlace(s, place);
      }
    }
  }

  lemma FirstAtPlace(s: seq<Route>, place: string)
    requires AllPrefix(s) && s != [] && SamePlace(s[0].path.prefix, place)
    ensures (exists i: nat :: OnlyAt(s, place, i)) <==>
            forall i :: 0 <= i < |s[1..]| ==> !SamePlace(s[1..][i].path.prefix, place)
  {
    var rest := s[1..];
    assert forall i :: 1 <= i < |s| ==> s[i] == rest[i - 1];
    if i: nat :| OnlyAt(s, place, i) {
      assert i == 0;
      assert forall j :: 0 <= j < |rest| ==> rest[j] == s[j + 1];
    }
    if forall i :: 0 <= i < |rest| ==> !SamePlace(rest[i].path.prefix, place) {
      assert OnlyAt(s, place, 0);
    }
  }

  lemma LaterAtPlace(s: seq<Route>, place: string)
    requires AllPrefix(s) && s != [] && !SamePlace(s[0].path.prefix, place)
    ensures (exists i: nat :: OnlyAt(s, place, i)) <==> exists i: nat :: OnlyAt(s[1..], place, i)
  {
    var rest := s[1..];
    assert forall i :: 1 <= i < |s| ==> s[i] == rest[i - 1];
    assert forall i :: 0 <= i < |rest| ==> rest[i] == s[i + 1];
    if i: nat :| OnlyAt(s, place, i) {
      assert OnlyAt(rest, place, i - 1);
    }
    if i: nat :| OnlyAt(rest, place, i) {
      assert OnlyAt(s, place, i + 1);
    }
  }

  /** A route is split into its two forms exactly if it has a replacement, its prefix is not the root
      path, and exactly one of all the routes is at its place. */
  lemma SplitsWhen(r: Route, context: seq<Route>)
    requires IsPrefixRoute(r) && AllPrefix(context)
    ensures Splits(r, Lone(r, context)) <==>
            r.rewrite != "" && r.path.prefix != "/" && OnlyOne(context, r.path.prefix)
  {
    OneAtPlace(context, r.path.prefix);
  }

  // ----- sizes of groups --------------------------------------------------------------

  lemma {:induction false} GroupSizeConcat(a: seq<Route>, b: seq<Route>, k: string)
    requires AllPrefix(a) && AllPrefix(b)
    ensures GroupSize(a + b, k) == GroupSize(a, k) + GroupSize(b, k)
  {
    if a == [] {
      assert a + b == b;
    } else {
      assert (a + b)[1..] == a[1..] + b;
      GroupSizeConcat(a[1..], b, k);
    }
  }

  lemma {:induction false} GroupSizeMember(s: seq<Route>, i: nat)
    requires AllPrefix(s) && i < |s|
    ensures GroupSize(s, KeyOf(s[i])) >= 1
  {
    assert s == s[..i] + ([s[i]] + s[i + 1..]);
    GroupSizeConcat(s[..i], [s[i]] + s[i + 1..], KeyOf(s[i]));
  }

  lemma PermutationKeepsPrefix(s: seq<Route>, t: seq<Route>)
    requires multiset(s) == multiset(t) && AllPrefix(s)
    ensures AllPrefix(t)
  {
    forall i | 0 <= i < |t|
      ensures IsPrefixRoute(t[i])
    {
      assert t[i] in multiset(s);
    }
  }

  lemma MultisetWithout<T>(t: seq<T>, i: nat)
    requires i < |t|
    ensures multiset(t[..i] + t[i + 1..]) == multiset(t) - multiset{t[i]}
  {
    assert t == t[..i] + ([t[i]] + t[i + 1..]);
    assert multiset(t) == multiset(t[..i]) + (multiset{t[i]} + multiset(t[i + 1..]));
  }

  /** Removing the first element of s from a reordering of s. */
  lemma SplitPermutation<T>(s: seq<T>, t: seq<T>) returns (i: nat)
    requires multiset(s) == multiset(t) && s != []
    ensures i < |t| && t[i] == s[0]
    ensures t == t[..i] + ([t[i]] + t[i + 1..])
    ensures multiset(s[1..]) == multiset(t[..i] + t[i + 1..])
  {
    assert s[0] in multiset(s) && s[0] in t;
    i :| 0 <= i < |t| && t[i] == s[0];
    MultisetWithout(t, i);
    assert s == [s[0]] + s[1..];
  }

  /** Group sizes do not depend on the order of routes. */
  lemma {:induction false} GroupSizePermutation(s: seq<Route>, t: seq<Route>, k: string)
    requires AllPrefix(s) && AllPrefix(t) && multiset(s) == multiset(t)
    ensures GroupSize(s, k) == GroupSize(t, k)
    decreases |s|
  {
    if s == [] {
      assert |t| == |multiset(t)| == 0;
    } else {
      var i := SplitPermutation(s, t);
      GroupSizePermutation(s[1..], t[..i] + t[i + 1..], k);
      GroupSizeConcat(t[..i], [t[i]] + t[i + 1..], k);
      GroupSizeConcat(t[..i], t[i + 1..], k);
    }
  }

  // ----- expansion and concatenation, reordering ------------------------------------------

  lemma {:induction false} ExpandInConcat(a: seq<Route>, b: seq<Route>, context: seq<Route>)
    requires AllPrefix(a) && AllPrefix(b) && AllPrefix(context)
    ensures ExpandIn(a + b, context) == ExpandIn(a, context) + ExpandIn(b, context)
  {
    if a == [] {
      assert a + b == b;
    } else {
      assert (a + b)[1..] == a[1..] + b;
      ExpandInConcat(a[1..], b, context);
    }
  }

  lemma {:induction false} ExpandInContext(s: seq<Route>, c: seq<Route>, d: seq<Route>)
    requires AllPrefix(s) && AllPrefix(c) && AllPrefix(d) && multiset(c) == multiset(d)
    ensures ExpandIn(s, c) == ExpandIn(s, d)
  {
    if s != [] {
      GroupSizePermutation(c, d, KeyOf(s[0]));
      ExpandInContext(s[1..], c, d);
    }
  }

  lemma {:induction false} ExpandInPermutation(s: seq<Route>, t: seq<Route>, context: seq<Route>)
    requires AllPrefix(s) && AllPrefix(t) && AllPrefix(context) && multiset(s) == multiset(t)
    ensures multiset(ExpandIn(s, context)) == multiset(ExpandIn(t, context))
    decreases |s|
  {
    if s == [] {
      assert |t| == |multiset(t)| == 0;
    } else {
      var i := SplitPermutation(s, t);
      ExpandInPermutation(s[1..], t[..i] + t[i + 1..], context);
      ExpandInConcat(t[..i], [t[i]] + t[i + 1..], context);
      ExpandInConcat(t[..i], t[i + 1..], context);
    }
  }

  /** The expansion, as a multiset, does not depend on the order of the routes. */
  lemma ExpandPermutation(s: seq<Route>, t: seq<Route>)
    requires AllPrefix(s) && multiset(s) == multiset(t)
    ensures AllPrefix(t)
    ensures multiset(Expand(s)) == multiset(Expand(t))
  {
    PermutationKeepsPrefix(s, t);
    ExpandInPermutation(s, t, s);
    ExpandInContext(t, s, t);
  }

  // ----- expansion is stable under nesting ---------------------------------------------------

  ghost predicate Normal(s: seq<Route>)
  {
    forall i :: 0 <= i < |s| ==> IsPrefixRoute(s[i]) && SlashNormal(s[i].path.prefix)
  }

  /** No route of s is split any more, whatever it is merged with. */
  ghost predicate Settled(s: seq<Route>)
  {
    AllPrefix(s) && forall i :: 0 <= i < |s| ==> !Splits(s[i], Lone(s[i], s))
  }

  /** The key of a normal prefix other than the root is a normal prefix that does not
      end in a slash, and the two spellings of a prefix have one key. */
  lemma KeyIsNormal(prefix: string)
    requires SlashNormal(prefix) && prefix != "/"
    ensures var k := GroupKey(prefix);
            && SlashNormal(k) && k != "/" && k[|k| - 1] != '/'
            && SlashNormal(k + "/") && k + "/" != "/"
            && (prefix == k || prefix == k + "/")
            && GroupKey(k) == k && GroupKey(k + "/") == k
  {
    var k := GroupKey(prefix);
    OneSlashAtMost(prefix);
    TrimRightSlash(k);
    assert k + "/" != "/";
    assert forall i :: 0 <= i < |k| ==> (k + "/")[i] == k[i];
  }

  /** Of a path in normal form at most one slash is trimmed. */
  lemma OneSlashAtMost(prefix: string)
    requires SlashNormal(prefix) && prefix != "/"
    ensures var k := TrimRight(prefix);
            k != "" && SlashNormal(k) && (prefix == k || prefix == k + "/")
  {
    var k := TrimRight(prefix);
    var n := |prefix|;
    assert n >= 2 && (prefix[n - 2] != '/' || prefix[n - 1] != '/');
    assert n <= |k| + 1;
    assert |prefix| == |k| + 1 ==> prefix == k + "/";
    assert forall i :: 0 <= i < |k| ==> k[i] == prefix[i];
  }

  lemma FormsKeepKey(r: Route, lone: bool, k: string)
    requires IsPrefixRoute(r) && SlashNormal(r.path.prefix)
    ensures Normal(Forms(r, lone))
    ensures GroupSize(Forms(r, lone), k) == if KeyOf(r) != k then 0 else if Splits(r, lone) then 2 else 1
  {
    if Splits(r, lone) {
      KeyIsNormal(r.path.prefix);
      GroupSizeConcat([ShortForm(r)], [LongForm(r)], k);
    }
  }

  /** A group grows or stays, and a group of one that splits becomes a group of two. */
  lemma {:induction false} ExpandInGroups(s: seq<Route>, context: seq<Route>, k: string)
    requires Normal(s) && AllPrefix(context)
    ensures Normal(ExpandIn(s, context))
    ensures GroupSize(ExpandIn(s, context), k) >= GroupSize(s, k)
    ensures (exists i :: 0 <= i < |s| && KeyOf(s[i]) == k && Splits(s[i], Lone(s[i], context)))
            ==> GroupSize(ExpandIn(s, context), k) >= 2
    ensures GroupSize(s, k) >= 2 ==> GroupSize(ExpandIn(s, context), k) >= 2
  {
    if s != [] {
      var first, rest := Forms(s[0], Lone(s[0], context)), ExpandIn(s[1..], context);
      FormsKeepKey(s[0], Lone(s[0], context), k);
      assert forall i :: 0 <= i < |s[1..]| ==> s[1..][i] == s[i + 1];
      ExpandInGroups(s[1..], context, k);
      GroupSizeConcat(first, rest, k);
      if i :| 0 <= i < |s| && KeyOf(s[i]) == k && Splits(s[i], Lone(s[i], context)) {
        if i > 0 {
          assert s[1..][i - 1] == s[i];
        }
      }
    }
  }

  /** Every form of a route is in the expansion. */
  lemma {:induction false} ExpandInContains(s: seq<Route>, context: seq<Route>, i: nat, form: Route)
    requires AllPrefix(s) && AllPrefix(context) && i < |s|
    requires form in Forms(s[i], Lone(s[i], context))
    ensures form in ExpandIn(s, context)
  {
    if i > 0 {
      assert s[1..][i - 1] == s[i];
      ExpandInContains(s[1..], context, i - 1, form);
    }
  }

  /** Where a route of the expansion comes from. */
  lemma {:induction false} ExpandInOrigin(s: seq<Route>, context: seq<Route>, x: nat) returns (i: nat)
    requires AllPrefix(s) && AllPrefix(context) && x < |ExpandIn(s, context)|
    ensures i < |s| && ExpandIn(s, context)[x] in Forms(s[i], Lone(s[i], context))
  {
    var first := Forms(s[0], Lone(s[0], context));
    if x < |first| {
      i := 0;
    } else {
      var j := ExpandInOrigin(s[1..], context, x - |first|);
      i := j + 1;
      assert s[1..][j] == s[i];
    }
  }

  /** What comes out of an expansion is settled. */
  lemma ExpandSettles(s: seq<Route>)
    requires Normal(s)
    ensures Normal(Expand(s)) && Settled(Expand(s))
  {
    var out := Expand(s);
    ExpandInGroups(s, s, "");
    forall x | 0 <= x < |out|
      ensures !Splits(out[x], Lone(out[x], out))
    {
      var i := ExpandInOrigin(s, s, x);
      var r := s[i];
      GroupSizeMember(s, i);
      ExpandInGroups(s, s, KeyOf(r));
      if Splits(r, Lone(r, s)) {
        KeyIsNormal(r.path.prefix);
        assert KeyOf(out[x]) == KeyOf(r);
      } else {
        assert out[x] == r;
      }
    }
  }

  /** Settled routes stay as they are in any larger context. */
  lemma {:induction false} SettledStays(s: seq<Route>, part: seq<Route>, context: seq<Route>)
    requires AllPrefix(s) && AllPrefix(context)
    requires forall i :: 0 <= i < |part| ==> part[i] in s && !Splits(part[i], Lone(part[i], s))
    requires forall k :: GroupSize(context, k) >= GroupSize(s, k)
    ensures ExpandIn(part, context) == part
  {
    if part != [] {
      assert part[0] in s;
      var i :| 0 <= i < |s| && s[i] == part[0];
      GroupSizeMember(s, i);
      assert forall i :: 0 <= i < |part[1..]| ==> part[1..][i] == part[i + 1];
      SettledStays(s, part[1..], context);
    }
  }

  /** Expanding routes that are already settled together with any others leaves them
      alone: only the others can still be split. */
  lemma ExpandIsStable(settled: seq<Route>, others: seq<Route>)
    requires Settled(settled) && AllPrefix(others)
    ensures Expand(settled + others) == settled + ExpandIn(others, settled + others)
  {
    var all := settled + others;
    ExpandInConcat(settled, others, all);
    forall k
      ensures GroupSize(all, k) >= GroupSize(settled, k)
    {
      GroupSizeConcat(settled, others, k);
    }
    SettledStays(settled, settled, all);
  }

  /** So expanding twice is expanding once. */
  lemma ExpandIsIdempotent(s: seq<Route>)
    requires Normal(s)
    ensures Expand(Expand(s)) == Expand(s)
  {
    ExpandSettles(s);
    ExpandIsStable(Expand(s), []);
    assert Expand(s) + [] == Expand(s);
  }
}
