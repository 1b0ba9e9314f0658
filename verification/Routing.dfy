/** What a request meets on a compiled host: the routes of a build, sorted, the first match
    taken and its prefix swapped (internal/dag/httpproxy_processor.go, internal/sorter/sorter.go). */
module Routing {
  import opened Text
  import opened Dag
  import opened Kube
  import opened Sorter
  import opened Expansion
  import opened Rewrite
  import opened Proxies
  import opened Compiler
  import opened Meaning
  import opened Origins
  import opened VirtualHosts
  import opened RouteTexts

  /** The table has exactly these routes, in some order. */
  ghost predicate SameRoutes(table: seq<Route>, routes: seq<Route>)
  {
    forall r :: r in table <==> r in routes
  }

  // ----- the route at an address --------------------------------------------------------------------

  ghost predicate IsPlace(env: Env, root: Root, name: Name, a: Address)
    requires name in env.proxies
  {
    IsCompiledAddress(env, root, name, [], [], a)
  }

  ghost function RouteAt(env: Env, root: Root, name: Name, a: Address): (r: Route)
    requires name in env.proxies && IsPlace(env, root, name, a)
    ensures IsPlain(r) && BuiltAt(env, root, name, [], a).route == Some(r)
  {
    RouteAtCompiledAddress(env, root, name, a);
    BuiltAt(env, root, name, [], a).route.value
  }

  /** It is split: it has a replacement and its prefix to itself where it is expanded. */
  ghost predicate IsSplitAt(env: Env, root: Root, name: Name, a: Address)
    requires name in env.proxies && IsPlace(env, root, name, a)
  {
    var r := RouteAt(env, root, name, a);
    Splits(r, Lone(r, ContextAt(env, root, name, [], [], a.path)))
  }

  /** It is split exactly if it has a replacement, its prefix is not the root path, and it is the only
      one of the routes expanded with it whose prefix is the same but for trailing slashes. */
  lemma SplitAtWhen(env: Env, root: Root, name: Name, a: Address)
    requires name in env.proxies && IsPlace(env, root, name, a)
    ensures var r, context := RouteAt(env, root, name, a), ContextAt(env, root, name, [], [], a.path);
            IsSplitAt(env, root, name, a) <==>
            r.rewrite != "" && r.path.prefix != "/" && OnlyOne(context, r.path.prefix)
  {
    SplitsWhen(RouteAt(env, root, name, a), ContextAt(env, root, name, [], [], a.path));
  }

  lemma FormsAtIs(env: Env, root: Root, name: Name, a: Address, r: Route)
    requires name in env.proxies && IsAddress(env, name, a) && BuiltAt(env, root, name, [], a).route == Some(r)
    requires IsPrefixRoute(r)
    ensures FormsAt(env, root, name, [], [], a) == Forms(r, Lone(r, ContextAt(env, root, name, [], [], a.path)))
  {
  }

  /** A split route has two forms, and one that is not split is its own. */
  lemma FormsOfRoute(env: Env, root: Root, name: Name, a: Address)
    requires name in env.proxies && IsPlace(env, root, name, a)
    ensures var r := RouteAt(env, root, name, a);
            && (IsSplitAt(env, root, name, a) ==> Splits(r, true))
            && FormsAt(env, root, name, [], [], a) == if IsSplitAt(env, root, name, a) then Forms(r, true) else [r]
  {
    FormsAtIs(env, root, name, a, RouteAt(env, root, name, a));
  }

  /** The forms at a compiled address are compiled. */
  lemma FormsAreEmitted(env: Env, root: Root, name: Name, a: Address)
    requires name in env.proxies && IsPlace(env, root, name, a)
    ensures forall form :: form in FormsAt(env, root, name, [], [], a) ==> form in Emit(env, root, name, [], [])
  {
    forall form | form in FormsAt(env, root, name, [], [], a)
      ensures form in Emit(env, root, name, [], [])
    {
      OriginIsEmitted(env, root, name, [], [], AtAddress(a), form);
    }
  }

  // ----- rewriting ---------------------------------------------------------------------------------

  /** The request is rewritten by the answering route as the user of r intended. */
  ghost predicate AsIntended(answer: Route, r: Route, path: string)
    requires IsPrefixRoute(r)
  {
    && IsPrefixRoute(answer) && answer.path.prefix <= path && KeyOf(r) <= path
    && Rewritten(answer, path) == Intended(KeyOf(r), r.rewrite, path)
  }

  /** The answer does what the route at an address calls for: if that was split, the path comes
      out as its user intended, and otherwise the answer is that route itself. */
  ghost predicate AnswersFor(env: Env, root: Root, name: Name, a: Address, answer: Route, path: string)
    requires name in env.proxies && IsPlace(env, root, name, a)
  {
    var r := RouteAt(env, root, name, a);
    if IsSplitAt(env, root, name, a) then AsIntended(answer, r, path) else answer == r
  }

  lemma AddressIsAnswered(env: Env, root: Root, name: Name, a: Address, table: seq<Route>, q: Request, k: nat)
    requires name in env.proxies && IsPlace(env, root, name, a)
    requires forall form :: form in Emit(env, root, name, [], []) ==> IsMatched(table, form)
    requires SortedByPath(table) && FirstMatch(table, q, k) && table[k] in FormsAt(env, root, name, [], [], a)
    ensures AnswersFor(env, root, name, a, table[k], q.path)
  {
    FormsOfRoute(env, root, name, a);
    FormsAreMatched(env, root, name, a, table);
    FormsAnswer(table, RouteAt(env, root, name, a), IsSplitAt(env, root, name, a),
                FormsAt(env, root, name, [], [], a), q, k);
  }

  lemma FormsAreMatched(env: Env, root: Root, name: Name, a: Address, table: seq<Route>)
    requires name in env.proxies && IsPlace(env, root, name, a)
    requires forall form :: form in Emit(env, root, name, [], []) ==> IsMatched(table, form)
    ensures AllMatched(table, FormsAt(env, root, name, [], [], a))
  {
    FormsAreEmitted(env, root, name, a);
  }

  ghost predicate AllMatched(table: seq<Route>, forms: seq<Route>)
  {
    forall form :: form in forms ==> IsMatched(table, form)
  }

  /** Of the forms of a route, the one that a sorted table finds rewrites as intended. */
  lemma FormsAnswer(table: seq<Route>, r: Route, split: bool, forms: seq<Route>, q: Request, k: nat)
    requires IsPrefixRoute(r) && (split ==> Splits(r, true)) && forms == (if split then Forms(r, true) else [r])
    requires SortedByPath(table) && FirstMatch(table, q, k) && table[k] in forms && AllMatched(table, forms)
    ensures if split then AsIntended(table[k], r, q.path) else table[k] == r
  {
    if split {
      TableRewritesAsIntended(table, r, q, k);
    }
  }

  /** End to end, for every set of proxies, with errors and cycles, every host and every request:
      the route that answers is a form of the route at a compiled address or the placeholder
      of a missing include; and it answers for every compiled address of which it is a form. */
  lemma RewriteIsAsIntended(env: Env, root: Root, name: Name, table: seq<Route>, q: Request, k: nat)
    requires name in env.proxies && SameRoutes(table, Emit(env, root, name, [], []))
    requires SortedByPath(table) && FirstMatch(table, q, k)
    ensures exists o :: IsOrigin(env, root, name, [], [], o, table[k])
    ensures forall a :: IsPlace(env, root, name, a) && table[k] in FormsAt(env, root, name, [], [], a) ==>
              AnswersFor(env, root, name, a, table[k], q.path)
  {
    TableIsMatched(table, Emit(env, root, name, [], []));
    TableAnswers(env, root, name, table, q, k);
  }

  lemma TableIsMatched(table: seq<Route>, routes: seq<Route>)
    requires SameRoutes(table, routes)
    ensures forall form :: form in routes ==> IsMatched(table, form)
  {
    forall form | form in routes
      ensures IsMatched(table, form)
    {
      var c :| 0 <= c < |table| && table[c] == form;
    }
  }

  /** The same for any table of compiled routes that matches whatever they match. */
  lemma TableAnswers(env: Env, root: Root, name: Name, table: seq<Route>, q: Request, k: nat)
    requires name in env.proxies && (forall r :: r in table ==> r in Emit(env, root, name, [], []))
    requires forall form :: form in Emit(env, root, name, [], []) ==> IsMatched(table, form)
    requires SortedByPath(table) && FirstMatch(table, q, k)
    ensures exists o :: IsOrigin(env, root, name, [], [], o, table[k])
    ensures forall a :: IsPlace(env, root, name, a) && table[k] in FormsAt(env, root, name, [], [], a) ==>
              AnswersFor(env, root, name, a, table[k], q.path)
  {
    var o := OriginOf(env, root, name, [], [], table[k]);
    forall a | IsPlace(env, root, name, a) && table[k] in FormsAt(env, root, name, [], [], a)
      ensures AnswersFor(env, root, name, a, table[k], q.path)
    {
      AddressIsAnswered(env, root, name, a, table, q, k);
    }
  }

  // ----- which address answers ------------------------------------------------------------------------

  /** A route that the request meets, other than r, has a shorter key. */
  ghost predicate IsShorter(s: Route, r: Route, q: Request)
    requires IsPrefixRoute(r) && IsPrefixRoute(s)
  {
    KeyOf(s) <= q.path && q.headersMatch(s.headers) ==> |KeyOf(s)| < |KeyOf(r)|
  }

  /** The path is below the route at an address, the request has its headers, and every other
      compiled address, and every placeholder, that the request meets has a shorter key. */
  ghost predicate IsLongest(env: Env, root: Root, name: Name, a: Address, q: Request)
    requires name in env.proxies && IsPlace(env, root, name, a)
  {
    var r := RouteAt(env, root, name, a);
    && KeyOf(r) <= q.path && q.headersMatch(r.headers)
    && (forall b :: IsPlace(env, root, name, b) && b != a ==> IsShorter(RouteAt(env, root, name, b), r, q))
    && (forall path, i, form :: IsOrigin(env, root, name, [], [], AtMissing(path, i), form) && IsPrefixRoute(form) ==>
          IsShorter(form, r, q))
  }

  lemma FormIsPlain(env: Env, root: Root, name: Name, b: Address, form: Route)
    requires name in env.proxies && IsPlace(env, root, name, b) && form in FormsAt(env, root, name, [], [], b)
    ensures var s := RouteAt(env, root, name, b);
            IsPlain(form) && KeyOf(form) == KeyOf(s) && form.headers == s.headers
  {
    var s := RouteAt(env, root, name, b);
    FormsAtIs(env, root, name, b, s);
    FormsArePlain(s, Lone(s, ContextAt(env, root, name, [], [], b.path)), form);
  }

  lemma OthersAreShorter(env: Env, root: Root, name: Name, a: Address, o: Origin, form: Route, q: Request)
    requires name in env.proxies && IsPlace(env, root, name, a)
    requires IsLongest(env, root, name, a, q) && IsOrigin(env, root, name, [], [], o, form)
    ensures IsPlain(form)
    ensures form in FormsAt(env, root, name, [], [], a) || IsShorter(form, RouteAt(env, root, name, a), q)
  {
    match o
    case AtMissing(path, i) => PlaceholderIsPlain(env, name, path, i, form);
    case AtAddress(b) => FormIsPlain(env, root, name, b, form);
  }

  lemma IsLongestKey(env: Env, root: Root, name: Name, a: Address, table: seq<Route>, q: Request)
    requires name in env.proxies && IsPlace(env, root, name, a) && IsSplitAt(env, root, name, a)
    requires SameRoutes(table, Emit(env, root, name, [], [])) && IsLongest(env, root, name, a, q)
    ensures AllPlain(table) && LongestKey(table, RouteAt(env, root, name, a), q)
  {
    var r := RouteAt(env, root, name, a);
    FormsOfRoute(env, root, name, a);
    forall i | 0 <= i < |table|
      ensures IsPlain(table[i]) && (table[i] in Forms(r, true) || IsShorter(table[i], r, q))
    {
      var o := OriginOf(env, root, name, [], [], table[i]);
      OthersAreShorter(env, root, name, a, o, table[i], q);
    }
  }

  lemma LongestSplitAnswers(table: seq<Route>, r: Route, q: Request, k: nat)
    requires SortedByPath(table) && FirstMatch(table, q, k) && IsPlain(r) && Splits(r, true)
    requires forall form :: form in Forms(r, true) ==> form in table
    requires AllPlain(table) && LongestKey(table, r, q)
    ensures table[k] in Forms(r, true)
  {
    assert Chosen(r, q.path) in Forms(r, true);
    LongestKeyAnswers(table, r, q, k);
  }

  /** A request whose longest base is that of one compiled address is answered by the route there
      and, as that was split, rewritten as intended, whatever is wrong with other proxies. */
  lemma LongestAddressAnswers(env: Env, root: Root, name: Name, a: Address, table: seq<Route>, q: Request, k: nat)
    requires name in env.proxies && IsPlace(env, root, name, a) && IsSplitAt(env, root, name, a)
    requires SameRoutes(table, Emit(env, root, name, [], [])) && SortedByPath(table) && FirstMatch(table, q, k)
    requires IsLongest(env, root, name, a, q)
    ensures table[k] in FormsAt(env, root, name, [], [], a)
    ensures AsIntended(table[k], RouteAt(env, root, name, a), q.path)
  {
    FormsOfRoute(env, root, name, a);
    FormsAreEmitted(env, root, name, a);
    IsLongestKey(env, root, name, a, table, q);
    LongestSplitAnswers(table, RouteAt(env, root, name, a), q, k);
    TableIsMatched(table, Emit(env, root, name, [], []));
    AddressIsAnswered(env, root, name, a, table, q, k);
  }

  // ----- on a host ---------------------------------------------------------------------------------------

  /** These are the routes of a host, in some order. */
  ghost predicate Lists(listing: seq<Route>, host: map<string, Route>)
  {
    forall r :: r in listing <==> exists key :: key in host && host[key] == r
  }

  /** Routes with the same text match the same requests: they have the same path and headers. */
  ghost predicate TextsTell(routes: seq<Route>)
  {
    forall r, s :: r in routes && s in routes && KeyString(r) == KeyString(s) ==>
      r.path == s.path && r.headers == s.headers
  }

  lemma ListingIsOf(added: seq<Route>, listing: seq<Route>, r: Route)
    requires Lists(listing, Added(map[], added)) && r in listing
    ensures r in added
  {
    var key :| key in Added(map[], added) && Added(map[], added)[key] == r;
    LastOneStays(added, key);
    var i: nat :| LastAt(Texts(added), key, i);
    assert added[i] in added;
  }

  /** What a route that was added matches is matched on the host, by it or by a later one. */
  lemma ListingMatches(added: seq<Route>, listing: seq<Route>, r: Route)
    requires Lists(listing, Added(map[], added)) && TextsTell(added) && r in added
    ensures IsMatched(listing, r)
  {
    var j :| 0 <= j < |added| && added[j] == r;
    var i := SomeIsLast(Texts(added), j);
    LastOneStays(added, KeyString(r));
    assert added[i] in added && added[i] in listing;
    var c :| 0 <= c < |listing| && listing[c] == added[i];
  }

  /** So it is on the host itself: whatever the order in which the compiled routes were added to
      it, if routes with the same text match the same requests. */
  lemma HostRewritesAsIntended(env: Env, root: Root, name: Name, added: seq<Route>, listing: seq<Route>, q: Request,
                               k: nat)
    requires name in env.proxies && multiset(added) == multiset(Emit(env, root, name, [], []))
    requires TextsTell(Emit(env, root, name, [], [])) && Lists(listing, Added(map[], added))
    requires SortedByPath(listing) && FirstMatch(listing, q, k)
    ensures exists o :: IsOrigin(env, root, name, [], [], o, listing[k])
    ensures forall a :: IsPlace(env, root, name, a) && listing[k] in FormsAt(env, root, name, [], [], a) ==>
              AnswersFor(env, root, name, a, listing[k], q.path)
  {
    SameMembers(added, Emit(env, root, name, [], []));
    forall r | r in listing
      ensures r in Emit(env, root, name, [], [])
    {
      ListingIsOf(added, listing, r);
    }
    forall form | form in Emit(env, root, name, [], [])
      ensures IsMatched(listing, form)
    {
      ListingMatches(added, listing, form);
    }
    TableAnswers(env, root, name, listing, q, k);
  }

  lemma SameMembers(a: seq<Route>, b: seq<Route>)
    requires multiset(a) == multiset(b)
    ensures forall r :: r in a <==> r in b
  {
    forall r
      ensures r in a <==> r in b
    {
      assert (r in a <==> r in multiset(a)) && (r in b <==> r in multiset(b));
    }
  }

  /** The texts of plain routes without header matches do. */
  lemma PlainTextsTell(routes: seq<Route>)
    requires forall r :: r in routes ==> IsPlain(r) && r.headers == []
    ensures TextsTell(routes)
  {
    forall r, s | r in routes && s in routes && KeyString(r) == KeyString(s)
      ensures r.path == s.path
    {
      TextOfPrefix(r.path.prefix, s.path.prefix, r, s);
    }
  }

  /** So do those of any routes without separators in their prefixes and header matches. */
  lemma CleanRoutesTell(routes: seq<Route>)
    requires forall r :: r in routes ==> IsClean(r)
    ensures TextsTell(routes)
  {
    forall r, s | r in routes && s in routes && KeyString(r) == KeyString(s)
      ensures r.path == s.path && r.headers == s.headers
    {
      CleanTextsTell(r, s);
    }
  }
}
