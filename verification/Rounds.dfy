/** A whole run of the HTTPProxy processor as a fold over the proxies that it computes, in
    the order in which it computes them, and why that order gives the right orphans. */
module Rounds {
  import opened Dag
  import opened Kube
  import opened Status
  import opened Proxies
  import opened Compiler
  import opened Builds
  import opened Reporting
  import opened Checks
  import opened VirtualHosts
  import opened Walks

  // ----- orphans ---------------------------------------------------------------------------------

  /** The list of orphans after these proxies: one without a host goes on it, a root takes
      off what it reaches. */
  ghost function Listed(env: Env, names: seq<Name>): (ns: set<Name>)
  {
    if names == [] then {}
    else
      var n, before := names[|names| - 1], Listed(env, names[..|names| - 1]);
      if IsRootProxy(env, n) then before - VisitedFrom(env, n) else before + {n}
  }

  /** What validHTTPProxies returns: every proxy without a host, then every root whose host
      is its own. */
  ghost predicate InOrder(env: Env, plain: seq<Name>, roots: seq<Name>)
  {
    && (forall n :: n in plain <==> n in env.proxies && !IsRootProxy(env, n))
    && (forall n :: n in roots <==> IsProcessed(env, n))
    && NoRepeats(roots)
  }

  lemma {:induction false} ListedPlain(env: Env, plain: seq<Name>)
    requires forall i :: 0 <= i < |plain| ==> plain[i] in env.proxies && !IsRootProxy(env, plain[i])
    ensures Listed(env, plain) == set n | n in plain
  {
    if plain != [] {
      var k := |plain| - 1;
      ListedPlain(env, plain[..k]);
      assert plain == plain[..k] + [plain[k]];
    }
  }

  lemma {:induction false} ListedRoots(env: Env, plain: seq<Name>, roots: seq<Name>, n: Name)
    requires forall i :: 0 <= i < |plain| ==> plain[i] in env.proxies && !IsRootProxy(env, plain[i])
    requires forall i :: 0 <= i < |roots| ==> IsRootProxy(env, roots[i])
    ensures n in Listed(env, plain + roots) <==> n in plain && forall r :: r in roots && IsRootProxy(env, r) ==>
              n !in VisitedFrom(env, r)
  {
    if roots == [] {
      assert plain + roots == plain;
      ListedPlain(env, plain);
    } else {
      var k := |roots| - 1;
      assert (plain + roots)[..|plain + roots| - 1] == plain + roots[..k];
      ListedRoots(env, plain, roots[..k], n);
      assert roots == roots[..k] + [roots[k]];
    }
  }

  /** In that order, what is left on the list are exactly the orphans. */
  lemma ListedAreOrphans(env: Env, plain: seq<Name>, roots: seq<Name>)
    requires InOrder(env, plain, roots)
    ensures Listed(env, plain + roots) == Orphans(env)
  {
    assert forall i :: 0 <= i < |plain| ==> plain[i] in plain;
    assert forall i :: 0 <= i < |roots| ==> roots[i] in roots;
    forall n
      ensures n in Listed(env, plain + roots) <==> n in Orphans(env)
    {
      ListedRoots(env, plain, roots, n);
    }
  }

  // ----- commits -----------------------------------------------------------------------------------

  ghost function CommitsFor(env: Env, n: Name): (cs: seq<Commit>)
  {
    if IsRootProxy(env, n) then CommitsFrom(env, n) else [Commit(n, [], [])]
  }

  ghost function CommitsForAll(env: Env, names: seq<Name>): (cs: seq<Commit>)
  {
    if names == [] then [] else CommitsForAll(env, names[..|names| - 1]) + CommitsFor(env, names[|names| - 1])
  }

  lemma {:induction false} InCommitsForAll(env: Env, names: seq<Name>, c: Commit)
    ensures c in CommitsForAll(env, names) <==> exists n :: n in names && c in CommitsFor(env, n)
  {
    if names != [] {
      var k := |names| - 1;
      InCommitsForAll(env, names[..k], c);
      assert names == names[..k] + [names[k]];
      if n :| n in names && c in CommitsFor(env, n) {
        assert n in names[..k] || n == names[k];
      }
    }
  }

  /** The commits of roots that share a host. */
  ghost predicate IsDuplicate(env: Env, c: Commit)
  {
    IsRootProxy(env, c.name) && !HostIsUnique(env, c.name) && c == Commit(c.name, [DUPLICATE_VHOST], [])
  }

  ghost predicate IsOrphan(env: Env, c: Commit)
  {
    c.name in Orphans(env) && c == Commit(c.name, [ORPHAN], [])
  }

  ghost function Duplicates(group: seq<Name>): (cs: seq<Commit>)
    ensures |cs| == |group| && forall i :: 0 <= i < |group| ==> cs[i] == Commit(group[i], [DUPLICATE_VHOST], [])
  {
    seq(|group|, i requires 0 <= i < |group| => Commit(group[i], [DUPLICATE_VHOST], []))
  }

  /** The hosts with these keys have been looked at: roots with a host of their own are
      kept, the others were reported. */
  ghost predicate Picked(env: Env, keys: set<string>, roots: seq<Name>, cs: seq<Commit>)
  {
    && NoRepeats(roots)
    && (forall n :: n in roots <==> IsProcessed(env, n) && HostKey(env, n) in keys)
    && (forall c :: c in cs <==> IsDuplicate(env, c) && HostKey(env, c.name) in keys)
  }

  lemma PickOne(env: Env, plain: seq<Name>, groups: map<string, seq<Name>>, keys: set<string>, key: string,
                roots: seq<Name>, cs: seq<Commit>)
    requires Grouped(env, env.proxies.Keys, plain, groups) && key in groups && key !in keys
    requires Picked(env, keys, roots, cs)
    requires |groups[key]| == 1
    ensures Picked(env, keys + {key}, roots + [groups[key][0]], cs)
  {
    var n := groups[key][0];
    GroupsTell(env, plain, groups, key, n);
    NoRepeatsSnoc(roots, n);
    forall m
      ensures m in roots + [n] <==> IsProcessed(env, m) && HostKey(env, m) in keys + {key}
    {
      if IsProcessed(env, m) && HostKey(env, m) == key {
        assert m in groups[key];
      }
    }
    forall c | IsDuplicate(env, c)
      ensures HostKey(env, c.name) != key
    {
      assert c.name in groups[HostKey(env, c.name)];
      GroupsTell(env, plain, groups, HostKey(env, c.name), c.name);
    }
  }

  lemma ReportGroup(env: Env, plain: seq<Name>, groups: map<string, seq<Name>>, keys: set<string>, key: string,
                    roots: seq<Name>, cs: seq<Commit>)
    requires Grouped(env, env.proxies.Keys, plain, groups) && key in groups && key !in keys
    requires Picked(env, keys, roots, cs)
    requires |groups[key]| != 1
    ensures Picked(env, keys + {key}, roots, cs + Duplicates(groups[key]))
  {
    var group, all := groups[key], cs + Duplicates(groups[key]);
    forall n | IsProcessed(env, n)
      ensures HostKey(env, n) != key
    {
      assert n in groups[HostKey(env, n)];
      GroupsTell(env, plain, groups, HostKey(env, n), n);
    }
    forall c
      ensures c in Duplicates(group) <==> IsDuplicate(env, c) && HostKey(env, c.name) == key
    {
      InDuplicates(group, c);
      if c.name in group {
        GroupsTell(env, plain, groups, key, c.name);
      }
    }
    assert forall c :: c in all <==> c in cs || c in Duplicates(group);
  }

  lemma InDuplicates(group: seq<Name>, c: Commit)
    ensures c in Duplicates(group) <==> c.name in group && c == Commit(c.name, [DUPLICATE_VHOST], [])
  {
    if c.name in group && c == Commit(c.name, [DUPLICATE_VHOST], []) {
      var i :| 0 <= i < |group| && group[i] == c.name;
      assert Duplicates(group)[i] == c;
    }
  }

  lemma AllPicked(env: Env, plain: seq<Name>, groups: map<string, seq<Name>>, roots: seq<Name>, cs: seq<Commit>)
    requires Grouped(env, env.proxies.Keys, plain, groups) && Picked(env, groups.Keys, roots, cs)
    ensures InOrder(env, plain, roots) && forall c :: c in cs <==> IsDuplicate(env, c)
  {
  }

  ghost predicate AllOrphans(env: Env, names: set<Name>, cs: seq<Commit>)
  {
    forall c :: c in cs <==> c.name in names && c == Commit(c.name, [ORPHAN], [])
  }

  lemma OneMoreOrphan(env: Env, names: set<Name>, n: Name, cs: seq<Commit>)
    requires AllOrphans(env, names, cs)
    ensures AllOrphans(env, names + {n}, cs + [Commit(n, [ORPHAN], [])])
  {
  }

  lemma ListedNext(env: Env, names: seq<Name>, n: Name)
    ensures Listed(env, names + [n]) ==
            if IsRootProxy(env, n) then Listed(env, names) - VisitedFrom(env, n) else Listed(env, names) + {n}
    ensures CommitsForAll(env, names + [n]) == CommitsForAll(env, names) + CommitsFor(env, n)
  {
    assert (names + [n])[..|names + [n]| - 1] == names;
  }

  /** The commits of a run are a trace of the build. */
  lemma RunIsTrace(env: Env, plain: seq<Name>, roots: seq<Name>, first: seq<Commit>, last: seq<Commit>)
    requires InOrder(env, plain, roots)
    requires forall c :: c in first <==> IsDuplicate(env, c)
    requires forall c :: c in last <==> IsOrphan(env, c)
    ensures IsTrace(env, first + CommitsForAll(env, plain + roots) + last)
  {
    var all := first + CommitsForAll(env, plain + roots) + last;
    forall c
      ensures c in all <==> IsMade(env, c)
    {
      InCommitsForAll(env, plain + roots, c);
      MadeBy(env, plain, roots, c);
      assert c in all <==> c in first || c in CommitsForAll(env, plain + roots) || c in last;
    }
    assert forall i :: 0 <= i < |all| ==> all[i] in all;
  }

  lemma MadeBy(env: Env, plain: seq<Name>, roots: seq<Name>, c: Commit)
    requires InOrder(env, plain, roots)
    ensures IsMade(env, c) <==>
            IsDuplicate(env, c) || IsOrphan(env, c) || exists n :: n in plain + roots && c in CommitsFor(env, n)
  {
    if n :| n in plain + roots && c in CommitsFor(env, n) {
      if n in roots {
        assert IsProcessed(env, n) && c in CommitsFrom(env, n);
      } else {
        assert n in plain;
      }
    }
    if c.name in env.proxies && !IsRootProxy(env, c.name) && c.issues == [] && c.warnings == [] {
      assert c.name in plain + roots && c == Commit(c.name, [], []) && c in CommitsFor(env, c.name);
    }
    if r :| IsProcessed(env, r) && c in CommitsFrom(env, r) {
      assert r in plain + roots && c in CommitsFor(env, r);
    }
  }

  // ----- status --------------------------------------------------------------------------------------

  /** A build gives the proxy an error, somewhere. */
  ghost predicate IsBlamed(env: Env, n: Name)
  {
    exists c :: IsMade(env, c) && c.name == n && c.issues != []
  }

  lemma EveryProxyIsMade(env: Env, n: Name)
    requires n in env.proxies
    ensures exists c :: IsMade(env, c) && c.name == n
  {
    if !IsRootProxy(env, n) {
      assert IsMade(env, Commit(n, [], []));
    } else if HostIsUnique(env, n) {
      var r := Process(env, n);
      var c := Commit(n, r.issues, r.warnings);
      var all := CommitsFrom(env, n);
      assert all[|all| - 1] == c;
      assert IsProcessed(env, n) && c in all;
      assert IsMade(env, c);
    } else {
      assert IsMade(env, Commit(n, [DUPLICATE_VHOST], []));
    }
  }

  /** After a build from an empty cache every proxy has a status, nothing else has, and it
      is invalid exactly when the build gave it an error: not a matter of the order in
      which maps were ranged over. */
  lemma StatusIsDetermined(env: Env, st: CacheState, cs: seq<Commit>)
    requires IsTrace(env, cs) && Progressed(env, EMPTY, st, cs)
    ensures ViewOf(st).Keys == env.proxies.Keys
    ensures forall n :: n in env.proxies ==>
              ViewOf(st)[n].status == if IsBlamed(env, n) then ConditionFalse else ConditionTrue
  {
    TraceIsShown(env, st, cs);
    forall n
      ensures n in ViewOf(st) <==> n in env.proxies
      ensures n in env.proxies ==> ViewOf(st)[n].status == if IsBlamed(env, n) then ConditionFalse else ConditionTrue
    {
      ShownStatus(env, cs, n);
    }
  }

  lemma TraceIsShown(env: Env, st: CacheState, cs: seq<Commit>)
    requires Progressed(env, EMPTY, st, cs)
    ensures ForProxies(env, cs) && ViewOf(st) == ShownAll(env, map[], cs)
  {
    ProgressIs(env, EMPTY, st, cs);
    assert ViewOf(EMPTY) == map[];
  }

  lemma ShownStatus(env: Env, cs: seq<Commit>, n: Name)
    requires IsTrace(env, cs) && ForProxies(env, cs)
    ensures var view := ShownAll(env, map[], cs);
            && (n in view <==> n in env.proxies)
            && (n in view ==> view[n].status == if IsBlamed(env, n) then ConditionFalse else ConditionTrue)
  {
    OneErrorIsEnough(env, cs, n);
    TraceTells(env, cs, n);
  }

  lemma TraceTells(env: Env, cs: seq<Commit>, n: Name)
    requires IsTrace(env, cs)
    ensures Mentions(cs, n) <==> n in env.proxies
    ensures Blames(cs, n) <==> IsBlamed(env, n)
  {
    if n in env.proxies {
      EveryProxyIsMade(env, n);
      var c :| IsMade(env, c) && c.name == n;
      assert c in cs;
      var i :| 0 <= i < |cs| && cs[i] == c;
    }
    if i :| 0 <= i < |cs| && cs[i].name == n {
      MadeForProxies(env, cs[i]);
    }
    if c :| IsMade(env, c) && c.name == n && c.issues != [] {
      assert c in cs;
      var i :| 0 <= i < |cs| && cs[i] == c;
    }
  }

  // ----- hosts ---------------------------------------------------------------------------------------

  function Fqdn(env: Env, n: Name): (host: string)
    requires IsRootProxy(env, n)
  {
    env.proxies[n].vhost.value.fqdn
  }

  /** The host of a root has been given these routes, and the TCP proxy that was found. */
  ghost predicate Given(env: Env, n: Name, h: Hosts, h': Hosts, added: seq<Route>)
    requires IsRootProxy(env, n)
  {
    GivenBy(env.proxies[n], Process(env, n), h, h', added)
  }

  /** The host of a root has been given what the root came to. */
  ghost predicate GivenBy(p: Proxy, r: Processed, h: Hosts, h': Hosts, added: seq<Route>)
    requires p.vhost.Some?
  {
    var host := p.vhost.value.fqdn;
    && multiset(added) == BagOf(r.routes)
    && RoutesOf(h'.insecure, host) == Added(RoutesOf(h.insecure, host), added)
    && RoutesOf(h'.secure, host) ==
      (if p.vhost.value.tls.Some? && p.tcp.None? then Added(RoutesOf(h.secure, host), added)
                                     else RoutesOf(h.secure, host))
    && (if r.tcp.Some? then host in h'.tcp && h'.tcp[host] == r.tcp.value else SameTCP(h, h', host))
  }

  ghost predicate SameTCP(h: Hosts, h': Hosts, host: string)
  {
    (host in h.tcp <==> host in h'.tcp) && (host in h.tcp ==> h'.tcp[host] == h.tcp[host])
  }

  ghost predicate SameHost(h: Hosts, h': Hosts, host: string)
  {
    && RoutesOf(h'.insecure, host) == RoutesOf(h.insecure, host)
    && RoutesOf(h'.secure, host) == RoutesOf(h.secure, host)
    && SameTCP(h, h', host)
  }

  ghost predicate HostOfAny(env: Env, names: seq<Name>, host: string)
  {
    exists n :: n in names && IsRootProxy(env, n) && Fqdn(env, n) == host
  }

  /** No root that is processed has this host. */
  ghost predicate HostOfNone(env: Env, host: string)
  {
    forall n :: IsProcessed(env, n) ==> Fqdn(env, n) != host
  }

  /** These proxies have been computed, and each root among them had a host of its own. */
  ghost predicate AllGiven(env: Env, names: seq<Name>, h: Hosts, h': Hosts, given: map<Name, seq<Route>>)
  {
    && (forall n :: n in names && IsRootProxy(env, n) ==> n in given && Given(env, n, h, h', given[n]))
    && (forall host :: !HostOfAny(env, names, host) ==> SameHost(h, h', host))
  }

  /** The account of a run so far: of the list of orphans, of the status cache and of the hosts,
      when these proxies have been computed. */
  ghost predicate Account(env: Env, names: seq<Name>, st: CacheState, st': CacheState, listed: set<Name>,
                          h: Hosts, h': Hosts, given: map<Name, seq<Route>>)
  {
    && listed == Listed(env, names)
    && Progressed(env, st, st', CommitsForAll(env, names))
    && AllGiven(env, names, h, h', given)
  }

  /** The same, said of every list that equals the names. */
  ghost predicate Accounted(env: Env, names: seq<Name>, st: CacheState, st': CacheState, listed: set<Name>,
                            h: Hosts, h': Hosts, given: map<Name, seq<Route>>)
  {
    Sound(st') && forall list :: list == names ==> Account(env, list, st, st', listed, h, h', given)
  }

  lemma AccountIs(env: Env, names: seq<Name>, st: CacheState, st': CacheState, listed: set<Name>,
                  h: Hosts, h': Hosts, given: map<Name, seq<Route>>)
    ensures Accounted(env, names, st, st', listed, h, h', given) <==> Account(env, names, st, st', listed, h, h', given)
  {
    if Accounted(env, names, st, st', listed, h, h', given) {
      assert Account(env, names, st, st', listed, h, h', given);
    }
  }

  lemma NothingToAccount(env: Env, st: CacheState, h: Hosts)
    requires Sound(st)
    ensures Accounted(env, [], st, st, {}, h, h, map[])
  {
    NoProgress(env, st);
    AccountIs(env, [], st, st, {}, h, h, map[]);
  }

  /** Processing a root changes its own host only. */
  lemma RootTouchesItsHost(env: Env, n: Name, h: Hosts, added: seq<Route>, host: string)
    requires IsRootProxy(env, n) && host != Fqdn(env, n)
    ensures SameHost(h, HostsAfter(h, env.proxies[n], Process(env, n), added), host)
  {
  }

  lemma RootIsGiven(env: Env, n: Name, h: Hosts, added: seq<Route>)
    requires IsRootProxy(env, n) && multiset(added) == BagOf(Process(env, n).routes)
    ensures Given(env, n, h, HostsAfter(h, env.proxies[n], Process(env, n), added), added)
  {
    ProcessedRoutesAreWalked(env, n);
    ResultIsGiven(env.proxies[n], Process(env, n), h, added);
  }

  lemma ProcessedRoutesAreWalked(env: Env, n: Name)
    requires IsRootProxy(env, n)
    ensures Process(env, n).routes.Some? ==> Process(env, n).walksRoutes
  {
  }

  lemma ResultIsGiven(p: Proxy, r: Processed, h: Hosts, added: seq<Route>)
    requires p.vhost.Some? && multiset(added) == BagOf(r.routes) && (r.routes.Some? ==> r.walksRoutes)
    ensures GivenBy(p, r, h, HostsAfter(h, p, r, added), added)
  {
    if r.routes.None? {
      assert |added| == |multiset(added)|;
      assert added == [];
    }
  }

  /** What a host was given stays when another host is changed. */
  lemma GivenStays(env: Env, n: Name, h: Hosts, mid: Hosts, h': Hosts, added: seq<Route>)
    requires IsRootProxy(env, n) && Given(env, n, h, mid, added) && SameHost(mid, h', Fqdn(env, n))
    ensures Given(env, n, h, h', added)
  {
  }

  lemma GivenAfterSame(env: Env, n: Name, h: Hosts, mid: Hosts, h': Hosts, added: seq<Route>)
    requires IsRootProxy(env, n) && SameHost(h, mid, Fqdn(env, n)) && Given(env, n, mid, h', added)
    ensures Given(env, n, h, h', added)
  {
  }

  lemma NextGiven(env: Env, names: seq<Name>, n: Name, h: Hosts, mid: Hosts, given: map<Name, seq<Route>>,
                  added: seq<Route>)
    requires AllGiven(env, names, h, mid, given) && IsRootProxy(env, n) && !HostOfAny(env, names, Fqdn(env, n))
    requires multiset(added) == BagOf(Process(env, n).routes)
    ensures AllGiven(env, names + [n], h, HostsAfter(mid, env.proxies[n], Process(env, n), added), given[n := added])
  {
    var h' := HostsAfter(mid, env.proxies[n], Process(env, n), added);
    forall m | m in names + [n] && IsRootProxy(env, m)
      ensures m in given[n := added] && Given(env, m, h, h', given[n := added][m])
    {
      if m in names {
        assert Fqdn(env, m) != Fqdn(env, n);
        RootTouchesItsHost(env, n, mid, added, Fqdn(env, m));
        GivenStays(env, m, h, mid, h', given[m]);
      } else {
        RootIsGiven(env, n, mid, added);
        GivenAfterSame(env, n, h, mid, h', added);
      }
    }
    forall host | !HostOfAny(env, names + [n], host)
      ensures SameHost(h, h', host)
    {
      assert n in names + [n];
      assert !HostOfAny(env, names, host) by { HostsGrow(env, names, n, host); }
      RootTouchesItsHost(env, n, mid, added, host);
    }
  }

  lemma HostsGrow(env: Env, names: seq<Name>, n: Name, host: string)
    ensures HostOfAny(env, names + [n], host) <==>
            HostOfAny(env, names, host) || (IsRootProxy(env, n) && Fqdn(env, n) == host)
  {
    if m :| m in names && IsRootProxy(env, m) && Fqdn(env, m) == host {
      assert m in names + [n];
    }
    if IsRootProxy(env, n) && Fqdn(env, n) == host {
      assert n in names + [n];
    }
  }

  lemma NextPlain(env: Env, names: seq<Name>, n: Name, h: Hosts, h': Hosts, given: map<Name, seq<Route>>)
    requires AllGiven(env, names, h, h', given) && !IsRootProxy(env, n)
    ensures AllGiven(env, names + [n], h, h', given)
  {
    forall host
      ensures HostOfAny(env, names + [n], host) <==> HostOfAny(env, names, host)
    {
      HostsGrow(env, names, n, host);
    }
  }

  /** What is computed next does not touch the hosts of those before it. */
  lemma NextIsApart(env: Env, plain: seq<Name>, roots: seq<Name>, k: nat)
    requires InOrder(env, plain, roots) && k < |plain + roots|
    ensures var n := (plain + roots)[k];
            n in env.proxies && (IsRootProxy(env, n) ==> !HostOfAny(env, (plain + roots)[..k], Fqdn(env, n)))
  {
    if k < |plain| {
      assert (plain + roots)[k] in plain;
    } else {
      OwnHost(env, plain, roots, k);
    }
  }

  /** Roots with hosts of their own do not share one. */
  lemma OwnHost(env: Env, plain: seq<Name>, roots: seq<Name>, k: nat)
    requires InOrder(env, plain, roots) && |plain| <= k < |plain + roots|
    ensures var n := (plain + roots)[k];
            IsProcessed(env, n) && !HostOfAny(env, (plain + roots)[..k], Fqdn(env, n))
  {
    var all := plain + roots;
    var n := all[k];
    assert n == roots[k - |plain|] && n in roots;
    forall i | 0 <= i < k
      ensures IsRootProxy(env, all[i]) ==> all[i] != n && IsProcessed(env, all[i])
    {
      assert all[i] in plain || (all[i] == roots[i - |plain|] && all[i] in roots);
    }
    assert forall m :: m in all[..k] && IsRootProxy(env, m) ==> m != n && IsProcessed(env, m);
    assert forall m :: m in all[..k] && IsRootProxy(env, m) ==> HostKey(env, m) != HostKey(env, n);
  }

  /** After all of them: the hosts of processed roots have what they gave, others nothing new. */
  lemma AllAreGiven(env: Env, plain: seq<Name>, roots: seq<Name>, h: Hosts, h': Hosts, given: map<Name, seq<Route>>)
    requires InOrder(env, plain, roots) && AllGiven(env, plain + roots, h, h', given)
    ensures forall n :: IsProcessed(env, n) ==> n in given && Given(env, n, h, h', given[n])
    ensures forall host :: HostOfNone(env, host) ==> SameHost(h, h', host)
  {
    assert forall n :: n in roots ==> n in plain + roots;
    forall host | HostOfNone(env, host)
      ensures !HostOfAny(env, plain + roots, host)
    {
      assert forall n :: n in plain + roots && IsRootProxy(env, n) ==> n in roots;
    }
  }
}
