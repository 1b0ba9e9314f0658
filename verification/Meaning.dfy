/** What the compiled routes mean: one route for every pair of an include path and a
    route of the proxy at its end, under the conditions of the whole path. */
module Meaning {
  import opened Text
  import opened Dag
  import opened Kube
  import opened Conditions
  import opened Expansion
  import opened Proxies
  import opened Compiler
  import opened Services

  // ----- what every call returns is normal and settled ------------------------------------------

  lemma {:induction false} OwnRoutesNormal(env: Env, root: Root, ns: string, conds: seq<MatchCondition>,
                                           rs: seq<RouteSpec>)
    requires Absolute(conds)
    ensures OwnRoutes(env, root, ns, conds, rs).Some? ==> Normal(OwnRoutes(env, root, ns, conds, rs).value)
  {
    if rs != [] && OwnRoutes(env, root, ns, conds, rs).Some? {
      OwnRoutesNormal(env, root, ns, conds, rs[1..]);
      BuiltIsNormal(env, root, ns, conds, rs[0]);
    }
  }

  lemma BuiltIsNormal(env: Env, root: Root, ns: string, conds: seq<MatchCondition>, r: RouteSpec)
    requires Absolute(conds) && BuildRoute(env, root, ns, conds, r).route.Some?
    ensures SlashNormal(BuildRoute(env, root, ns, conds, r).route.value.path.prefix)
  {
    assert Absolute(conds + r.conditions);
    AbsoluteMergesToNormal(conds + r.conditions);
  }

  lemma SettledConcat(a: seq<Route>, b: seq<Route>)
    requires Settled(a) && Settled(b)
    ensures Settled(a + b)
  {
    var s := a + b;
    forall i | 0 <= i < |s|
      ensures !Splits(s[i], Lone(s[i], s))
    {
      GroupSizeConcat(a, b, KeyOf(s[i]));
      if i < |a| {
        GroupSizeMember(a, i);
        assert !Splits(a[i], Lone(a[i], a));
      } else {
        GroupSizeMember(b, i - |a|);
        assert !Splits(b[i - |a|], Lone(b[i - |a|], b));
      }
    }
  }

  /** Whatever the graph and whatever is wrong in it, the routes that come out of a call
      have normal prefixes and are not expanded again by any caller. */
  lemma {:induction false} EmitSettled(env: Env, root: Root, name: Name, conds: seq<MatchCondition>, visited: seq<Name>)
    requires name in env.proxies && Absolute(conds)
    ensures Normal(Emit(env, root, name, conds, visited)) && Settled(Emit(env, root, name, conds, visited))
    decreases env.proxies.Keys - Seen(visited), 0, 0
  {
    var p := env.proxies[name];
    if name !in visited && !IncludesIdentical(p.includes) {
      SeenGrows(env.proxies.Keys, visited, name);
      EmitIncludesSettled(env, root, p, p.includes, conds, visited + [name]);
      OwnRoutesNormal(env, root, p.name.namespace, conds, p.routes);
      var below := EmitIncludes(env, root, p, p.includes, conds, visited + [name]);
      var own := OwnRoutes(env, root, p.name.namespace, conds, p.routes);
      if own.Some? {
        ExpandSettles(below + own.value);
      }
    }
  }

  lemma OutcomeIsAbsolute(env: Env, p: Proxy, inc: Include)
    requires OutcomeOf(env, p, inc) in {NotFound, Follow}
    ensures Absolute(inc.conditions)
  {
  }

  lemma PlaceholderSettled(inc: Include)
    requires Absolute(inc.conditions)
    ensures Normal(Placeholder(inc)) && Settled(Placeholder(inc))
  {
    AbsoluteMergesToNormal(inc.conditions);
  }

  lemma {:induction false} EmitIncludesSettled(env: Env, root: Root, p: Proxy, incs: seq<Include>,
                                               conds: seq<MatchCondition>, visited: seq<Name>)
    requires Absolute(conds)
    ensures Normal(EmitIncludes(env, root, p, incs, conds, visited))
    ensures Settled(EmitIncludes(env, root, p, incs, conds, visited))
    decreases env.proxies.Keys - Seen(visited), 1, |incs|
  {
    if incs != [] {
      var rest := EmitIncludes(env, root, p, incs[1..], conds, visited);
      EmitIncludesSettled(env, root, p, incs[1..], conds, visited);
      match OutcomeOf(env, p, incs[0]) {
        case NotFound =>
          OutcomeIsAbsolute(env, p, incs[0]);
          PlaceholderSettled(incs[0]);
          SettledConcat(Placeholder(incs[0]), rest);
        case Follow =>
          var target, below := TargetOf(p, incs[0]), conds + incs[0].conditions;
          OutcomeIsAbsolute(env, p, incs[0]);
          AbsoluteConcat(conds, incs[0].conditions);
          EmitSettled(env, root, target, below, visited);
          SettledConcat(Emit(env, root, target, below, visited), rest);
        case _ =>
          assert [] + rest == rest;
      }
    }
  }

  /** So a call adds its own routes, in their final form, to those of its includes, which
      stay as they are. */
  lemma EmitIsBelowAndOwn(env: Env, root: Root, name: Name, conds: seq<MatchCondition>, visited: seq<Name>)
    requires name in env.proxies && Absolute(conds)
    requires name !in visited && !IncludesIdentical(env.proxies[name].includes)
    requires OwnRoutes(env, root, env.proxies[name].name.namespace, conds, env.proxies[name].routes).Some?
    ensures var p := env.proxies[name];
            var below := EmitIncludes(env, root, p, p.includes, conds, visited + [name]);
            var own := OwnRoutes(env, root, p.name.namespace, conds, p.routes).value;
            Emit(env, root, name, conds, visited) == below + ExpandIn(own, below + own)
  {
    var p := env.proxies[name];
    var below := EmitIncludes(env, root, p, p.includes, conds, visited + [name]);
    var own := OwnRoutes(env, root, p.name.namespace, conds, p.routes).value;
    EmitIncludesSettled(env, root, p, p.includes, conds, visited + [name]);
    ExpandIsStable(below, own);
  }

  // ----- addresses ---------------------------------------------------------------------------------

  /** An include path from a proxy, as positions in the include lists, and the position of
      a route of the proxy at its end. */
  datatype Address = Address(path: seq<nat>, route: nat)

  /** The proxy at the end of an include path, if the path can be followed. */
  ghost function NodeAt(env: Env, name: Name, path: seq<nat>): (n: Option<Name>)
    requires name in env.proxies
    ensures n.Some? ==> n.value in env.proxies
    decreases |path|
  {
    if path == [] then Some(name)
    else
      var p := env.proxies[name];
      if path[0] < |p.includes| && OutcomeOf(env, p, p.includes[path[0]]) == Follow
      then NodeAt(env, TargetOf(p, p.includes[path[0]]), path[1..]) else None
  }

  /** The conditions of all the includes on the path, in order. */
  ghost function CondsAt(env: Env, name: Name, path: seq<nat>): (conds: seq<MatchCondition>)
    requires name in env.proxies && NodeAt(env, name, path).Some?
    decreases |path|
  {
    if path == [] then []
    else
      var inc := env.proxies[name].includes[path[0]];
      inc.conditions + CondsAt(env, TargetOf(env.proxies[name], inc), path[1..])
  }

  /** The proxies on the path before its end. */
  ghost function NamesBefore(env: Env, name: Name, path: seq<nat>): (ns: seq<Name>)
    requires name in env.proxies && NodeAt(env, name, path).Some?
    decreases |path|
  {
    if path == [] then []
    else [name] + NamesBefore(env, TargetOf(env.proxies[name], env.proxies[name].includes[path[0]]), path[1..])
  }

  ghost predicate IsAddress(env: Env, name: Name, a: Address)
    requires name in env.proxies
  {
    var n := NodeAt(env, name, a.path);
    n.Some? && a.route < |env.proxies[n.value].routes|
  }

  /** At the end of the path nothing is wrong: the proxy is not on the path already, its
      includes are all followed and its routes pass their checks. */
  ghost predicate WellAt(env: Env, root: Root, name: Name, conds: seq<MatchCondition>, visited: seq<Name>,
                         path: seq<nat>)
    requires name in env.proxies && NodeAt(env, name, path).Some?
  {
    var n := NodeAt(env, name, path).value;
    var p := env.proxies[n];
    && n !in visited + NamesBefore(env, name, path)
    && !IncludesIdentical(p.includes)
    && (forall i :: 0 <= i < |p.includes| ==> OutcomeOf(env, p, p.includes[i]) == Follow)
    && OwnRoutes(env, root, p.name.namespace, conds + CondsAt(env, name, path), p.routes).Some?
  }

  /** Nothing is wrong anywhere below the proxy. */
  ghost predicate AllWell(env: Env, root: Root, name: Name, conds: seq<MatchCondition>, visited: seq<Name>)
    requires name in env.proxies
  {
    forall path :: NodeAt(env, name, path).Some? ==> WellAt(env, root, name, conds, visited, path)
  }

  lemma AllWellHere(env: Env, root: Root, name: Name, conds: seq<MatchCondition>, visited: seq<Name>)
    requires name in env.proxies && AllWell(env, root, name, conds, visited)
    ensures var p := env.proxies[name];
            && name !in visited && !IncludesIdentical(p.includes)
            && (forall i :: 0 <= i < |p.includes| ==> OutcomeOf(env, p, p.includes[i]) == Follow)
            && OwnRoutes(env, root, p.name.namespace, conds, p.routes).Some?
  {
    assert NodeAt(env, name, []) == Some(name);
    assert WellAt(env, root, name, conds, visited, []);
    assert conds + CondsAt(env, name, []) == conds;
  }

  lemma PathShift(env: Env, name: Name, i: nat, path: seq<nat>)
    requires name in env.proxies && i < |env.proxies[name].includes|
    requires OutcomeOf(env, env.proxies[name], env.proxies[name].includes[i]) == Follow
    ensures var inc := env.proxies[name].includes[i];
            var target, longer := TargetOf(env.proxies[name], inc), [i] + path;
            && NodeAt(env, name, longer) == NodeAt(env, target, path)
            && (NodeAt(env, target, path).Some? ==>
                  && CondsAt(env, name, longer) == inc.conditions + CondsAt(env, target, path)
                  && NamesBefore(env, name, longer) == [name] + NamesBefore(env, target, path))
  {
    assert ([i] + path)[1..] == path;
  }

  lemma WellAtShift(env: Env, root: Root, name: Name, conds: seq<MatchCondition>, visited: seq<Name>, i: nat,
                    path: seq<nat>)
    requires name in env.proxies && i < |env.proxies[name].includes|
    requires OutcomeOf(env, env.proxies[name], env.proxies[name].includes[i]) == Follow
    requires NodeAt(env, name, [i] + path).Some? && WellAt(env, root, name, conds, visited, [i] + path)
    ensures var inc := env.proxies[name].includes[i];
            var target := TargetOf(env.proxies[name], inc);
            && NodeAt(env, target, path).Some?
            && WellAt(env, root, target, conds + inc.conditions, visited + [name], path)
  {
    PathShift(env, name, i, path);
    var inc := env.proxies[name].includes[i];
    var target := TargetOf(env.proxies[name], inc);
    Regroup(conds, inc.conditions, CondsAt(env, target, path));
    Regroup(visited, [name], NamesBefore(env, target, path));
  }

  lemma AllWellBelow(env: Env, root: Root, name: Name, conds: seq<MatchCondition>, visited: seq<Name>, i: nat)
    requires name in env.proxies && AllWell(env, root, name, conds, visited)
    requires i < |env.proxies[name].includes|
    ensures var p := env.proxies[name];
            var inc := p.includes[i];
            && OutcomeOf(env, p, inc) == Follow
            && AllWell(env, root, TargetOf(p, inc), conds + inc.conditions, visited + [name])
  {
    AllWellHere(env, root, name, conds, visited);
    var p := env.proxies[name];
    var inc := p.includes[i];
    forall path | NodeAt(env, TargetOf(p, inc), path).Some?
      ensures WellAt(env, root, TargetOf(p, inc), conds + inc.conditions, visited + [name], path)
    {
      PathShift(env, name, i, path);
      WellAtShift(env, root, name, conds, visited, i, path);
    }
  }

  // ----- the addresses below a proxy, listed ----------------------------------------------------------

  ghost function Prefixed(i: nat, addresses: seq<Address>): (out: seq<Address>)
    ensures |out| == |addresses|
    ensures forall k :: 0 <= k < |out| ==> out[k] == Address([i] + addresses[k].path, addresses[k].route)
  {
    seq(|addresses|, k requires 0 <= k < |addresses| => Address([i] + addresses[k].path, addresses[k].route))
  }

  ghost function OwnAddresses(n: nat): (out: seq<Address>)
    ensures |out| == n && forall k :: 0 <= k < n ==> out[k] == Address([], k)
  {
    seq(n, k requires 0 <= k < n => Address([], k))
  }

  ghost function Addresses(env: Env, name: Name, visited: seq<Name>): (out: seq<Address>)
    requires name in env.proxies
    decreases env.proxies.Keys - Seen(visited), 0, 0
  {
    if name in visited then []
    else
      SeenGrows(env.proxies.Keys, visited, name);
      AddressesBelow(env, env.proxies[name], 0, visited + [name]) + OwnAddresses(|env.proxies[name].routes|)
  }

  /** Those through the includes from position i on. */
  ghost function AddressesBelow(env: Env, p: Proxy, i: nat, visited: seq<Name>): (out: seq<Address>)
    requires i <= |p.includes|
    decreases env.proxies.Keys - Seen(visited), 1, |p.includes| - i
  {
    if i == |p.includes| then []
    else
      (if OutcomeOf(env, p, p.includes[i]) == Follow
       then Prefixed(i, Addresses(env, TargetOf(p, p.includes[i]), visited)) else [])
      + AddressesBelow(env, p, i + 1, visited)
  }

  // ----- routes of addresses ------------------------------------------------------------------------------

  /** The route at an address: built from the conditions of the whole path and its own. */
  ghost function BuiltAt(env: Env, root: Root, name: Name, conds: seq<MatchCondition>, a: Address): (b: Built)
    requires name in env.proxies && IsAddress(env, name, a)
  {
    var p := env.proxies[NodeAt(env, name, a.path).value];
    BuildRoute(env, root, p.name.namespace, conds + CondsAt(env, name, a.path), p.routes[a.route])
  }

  /** All the routes that the call for the proxy at the end of the path has before it
      expands them. */
  ghost function ContextAt(env: Env, root: Root, name: Name, conds: seq<MatchCondition>, visited: seq<Name>,
                           path: seq<nat>): (routes: seq<Route>)
    requires name in env.proxies && NodeAt(env, name, path).Some?
    ensures AllPrefix(routes)
    decreases |path|
  {
    var p := env.proxies[name];
    if path == [] then
      var own := OwnRoutes(env, root, p.name.namespace, conds, p.routes);
      EmitIncludes(env, root, p, p.includes, conds, visited + [name]) + if own.Some? then own.value else []
    else
      var inc := p.includes[path[0]];
      ContextAt(env, root, TargetOf(p, inc), conds + inc.conditions, visited + [name], path[1..])
  }

  /** The routes that an address contributes: one, or the two forms of one that is split. */
  ghost function FormsAt(env: Env, root: Root, name: Name, conds: seq<MatchCondition>, visited: seq<Name>,
                         a: Address): (routes: seq<Route>)
    requires name in env.proxies && IsAddress(env, name, a)
    ensures AllPrefix(routes)
  {
    var b := BuiltAt(env, root, name, conds, a);
    if b.route.None? then []
    else Forms(b.route.value, Lone(b.route.value, ContextAt(env, root, name, conds, visited, a.path)))
  }

  ghost function FormsOf(env: Env, root: Root, name: Name, conds: seq<MatchCondition>, visited: seq<Name>,
                         addresses: seq<Address>): (routes: seq<Route>)
    requires name in env.proxies && forall k :: 0 <= k < |addresses| ==> IsAddress(env, name, addresses[k])
  {
    if addresses == [] then []
    else FormsAt(env, root, name, conds, visited, addresses[0]) +
         FormsOf(env, root, name, conds, visited, addresses[1..])
  }

  lemma {:induction false} FormsOfConcat(env: Env, root: Root, name: Name, conds: seq<MatchCondition>,
                                         visited: seq<Name>, a: seq<Address>, b: seq<Address>)
    requires name in env.proxies
    requires forall k :: 0 <= k < |a| ==> IsAddress(env, name, a[k])
    requires forall k :: 0 <= k < |b| ==> IsAddress(env, name, b[k])
    ensures FormsOf(env, root, name, conds, visited, a + b) ==
            FormsOf(env, root, name, conds, visited, a) + FormsOf(env, root, name, conds, visited, b)
  {
    if a == [] {
      assert a + b == b;
    } else {
      assert (a + b)[1..] == a[1..] + b;
      FormsOfConcat(env, root, name, conds, visited, a[1..], b);
      var x := FormsAt(env, root, name, conds, visited, a[0]);
      var y, z := FormsOf(env, root, name, conds, visited, a[1..]), FormsOf(env, root, name, conds, visited, b);
      assert FormsOf(env, root, name, conds, visited, a + b) == x + (y + z);
      Regroup(x, y, z);
    }
  }

  /** One include further down, the same route. */
  lemma FormsShift(env: Env, root: Root, name: Name, conds: seq<MatchCondition>, visited: seq<Name>, i: nat, a: Address)
    requires name in env.proxies && i < |env.proxies[name].includes|
    requires var p := env.proxies[name];
             OutcomeOf(env, p, p.includes[i]) == Follow && IsAddress(env, TargetOf(p, p.includes[i]), a)
    ensures var p := env.proxies[name];
            var inc := p.includes[i];
            var longer := Address([i] + a.path, a.route);
            && IsAddress(env, name, longer)
            && FormsAt(env, root, name, conds, visited, longer) ==
               FormsAt(env, root, TargetOf(p, inc), conds + inc.conditions, visited + [name], a)
  {
    var inc := env.proxies[name].includes[i];
    var longer := [i] + a.path;
    assert longer[1..] == a.path;
    assert conds + CondsAt(env, name, longer) ==
           conds + inc.conditions + CondsAt(env, TargetOf(env.proxies[name], inc), a.path);
  }

  lemma {:induction false} FormsOfPrefixed(env: Env, root: Root, name: Name, conds: seq<MatchCondition>,
                                           visited: seq<Name>, i: nat, addresses: seq<Address>)
    requires name in env.proxies && i < |env.proxies[name].includes|
    requires OutcomeOf(env, env.proxies[name], env.proxies[name].includes[i]) == Follow
    requires var target := TargetOf(env.proxies[name], env.proxies[name].includes[i]);
             forall k :: 0 <= k < |addresses| ==> IsAddress(env, target, addresses[k])
    ensures forall k :: 0 <= k < |addresses| ==> IsAddress(env, name, Prefixed(i, addresses)[k])
    ensures var p := env.proxies[name];
            var inc := p.includes[i];
            FormsOf(env, root, name, conds, visited, Prefixed(i, addresses)) ==
            FormsOf(env, root, TargetOf(p, inc), conds + inc.conditions, visited + [name], addresses)
  {
    if addresses != [] {
      FormsShift(env, root, name, conds, visited, i, addresses[0]);
      FormsOfPrefixed(env, root, name, conds, visited, i, addresses[1..]);
      PrefixedFirst(i, addresses);
      FormsOfFirst(env, root, name, conds, visited, Address([i] + addresses[0].path, addresses[0].route),
                   Prefixed(i, addresses[1..]));
    }
  }

  lemma PrefixedFirst(i: nat, addresses: seq<Address>)
    requires addresses != []
    ensures Prefixed(i, addresses) ==
            [Address([i] + addresses[0].path, addresses[0].route)] + Prefixed(i, addresses[1..])
  {
  }

  lemma FormsOfFirst(env: Env, root: Root, name: Name, conds: seq<MatchCondition>, visited: seq<Name>, first: Address,
                     rest: seq<Address>)
    requires name in env.proxies && IsAddress(env, name, first)
    requires forall k :: 0 <= k < |rest| ==> IsAddress(env, name, rest[k])
    ensures var all := [first] + rest;
            && (forall k :: 0 <= k < |all| ==> IsAddress(env, name, all[k]))
            && FormsOf(env, root, name, conds, visited, all) ==
               FormsAt(env, root, name, conds, visited, first) + FormsOf(env, root, name, conds, visited, rest)
  {
    var all := [first] + rest;
    assert all[1..] == rest;
  }

  // ----- every address once ------------------------------------------------------------------------------------

  ghost predicate NoRepeats(addresses: seq<Address>)
  {
    forall k, l :: 0 <= k < l < |addresses| ==> addresses[k] != addresses[l]
  }

  /** What is listed are addresses, and none twice. */
  lemma {:induction false} AddressesSound(env: Env, name: Name, visited: seq<Name>)
    requires name in env.proxies
    ensures forall k :: 0 <= k < |Addresses(env, name, visited)| ==>
              IsAddress(env, name, Addresses(env, name, visited)[k])
    ensures NoRepeats(Addresses(env, name, visited))
    decreases env.proxies.Keys - Seen(visited), 0, 0
  {
    if name !in visited {
      SeenGrows(env.proxies.Keys, visited, name);
      AddressesBelowSound(env, name, 0, visited + [name]);
      assert NodeAt(env, name, []) == Some(name);
      var below, own := AddressesBelow(env, env.proxies[name], 0, visited + [name]),
          OwnAddresses(|env.proxies[name].routes|);
      assert forall k :: 0 <= k < |below| ==> below[k].path != [];
      assert forall k :: 0 <= k < |own| ==> own[k].path == [];
    }
  }

  lemma {:induction false} AddressesBelowSound(env: Env, name: Name, i: nat, visited: seq<Name>)
    requires name in env.proxies && i <= |env.proxies[name].includes|
    ensures var below := AddressesBelow(env, env.proxies[name], i, visited);
            && NoRepeats(below)
            && forall k :: 0 <= k < |below| ==>
                below[k].path != [] && below[k].path[0] >= i && IsAddress(env, name, below[k])
    decreases env.proxies.Keys - Seen(visited), 1, |env.proxies[name].includes| - i
  {
    var p := env.proxies[name];
    if i < |p.includes| {
      AddressesBelowSound(env, name, i + 1, visited);
      if OutcomeOf(env, p, p.includes[i]) == Follow {
        var target := TargetOf(p, p.includes[i]);
        AddressesSound(env, target, visited);
        PrefixedSound(env, name, i, Addresses(env, target, visited));
      }
    }
  }

  lemma PrefixedSound(env: Env, name: Name, i: nat, addresses: seq<Address>)
    requires name in env.proxies && i < |env.proxies[name].includes|
    requires OutcomeOf(env, env.proxies[name], env.proxies[name].includes[i]) == Follow
    requires var target := TargetOf(env.proxies[name], env.proxies[name].includes[i]);
             forall k :: 0 <= k < |addresses| ==> IsAddress(env, target, addresses[k])
    requires NoRepeats(addresses)
    ensures var out := Prefixed(i, addresses);
            && NoRepeats(out)
            && forall k :: 0 <= k < |out| ==> out[k].path != [] && out[k].path[0] == i && IsAddress(env, name, out[k])
  {
    var out := Prefixed(i, addresses);
    forall k | 0 <= k < |out|
      ensures out[k].path != [] && out[k].path[0] == i && IsAddress(env, name, out[k])
    {
      PathShift(env, name, i, addresses[k].path);
    }
    forall k, l | 0 <= k < l < |out|
      ensures out[k] != out[l]
    {
      assert out[k].path[1..] == addresses[k].path && out[l].path[1..] == addresses[l].path;
    }
  }

  lemma AddressesAre(env: Env, name: Name, visited: seq<Name>, a: Address)
    requires name in env.proxies && name !in visited
    ensures a in Addresses(env, name, visited) <==>
            || a in AddressesBelow(env, env.proxies[name], 0, visited + [name])
            || a in OwnAddresses(|env.proxies[name].routes|)
  {
    InEither(AddressesBelow(env, env.proxies[name], 0, visited + [name]), OwnAddresses(|env.proxies[name].routes|), a);
  }

  /** When nothing is wrong, every address is listed. */
  lemma {:induction false} AddressesComplete(env: Env, root: Root, name: Name, conds: seq<MatchCondition>,
                                             visited: seq<Name>, a: Address)
    requires name in env.proxies && AllWell(env, root, name, conds, visited) && IsAddress(env, name, a)
    ensures a in Addresses(env, name, visited)
    decreases |a.path|
  {
    AllWellHere(env, root, name, conds, visited);
    SeenGrows(env.proxies.Keys, visited, name);
    var p := env.proxies[name];
    AddressesAre(env, name, visited, a);
    if a.path == [] {
      assert OwnAddresses(|p.routes|)[a.route] == a;
    } else {
      AddressBelow(env, name, a);
      var i, inc := a.path[0], p.includes[a.path[0]];
      AllWellBelow(env, root, name, conds, visited, i);
      var shorter := Address(a.path[1..], a.route);
      AddressesComplete(env, root, TargetOf(p, inc), conds + inc.conditions, visited + [name], shorter);
      InAddressesBelow(env, p, 0, i, visited + [name], shorter);
    }
  }

  lemma AddressBelow(env: Env, name: Name, a: Address)
    requires name in env.proxies && IsAddress(env, name, a) && a.path != []
    ensures var p, i, shorter := env.proxies[name], a.path[0], Address(a.path[1..], a.route);
            && i < |p.includes| && OutcomeOf(env, p, p.includes[i]) == Follow
            && IsAddress(env, TargetOf(p, p.includes[i]), shorter) && a == Address([i] + shorter.path, shorter.route)
  {
    assert [a.path[0]] + a.path[1..] == a.path;
  }

  lemma {:induction false} InAddressesBelow(env: Env, p: Proxy, from: nat, i: nat, visited: seq<Name>, a: Address)
    requires from <= i < |p.includes| && OutcomeOf(env, p, p.includes[i]) == Follow
    requires a in Addresses(env, TargetOf(p, p.includes[i]), visited)
    ensures Address([i] + a.path, a.route) in AddressesBelow(env, p, from, visited)
    decreases i - from
  {
    var first := if OutcomeOf(env, p, p.includes[from]) == Follow
                 then Prefixed(from, Addresses(env, TargetOf(p, p.includes[from]), visited)) else [];
    InEither(first, AddressesBelow(env, p, from + 1, visited), Address([i] + a.path, a.route));
    if from < i {
      InAddressesBelow(env, p, from + 1, i, visited, a);
    } else {
      InPrefixed(i, Addresses(env, TargetOf(p, p.includes[i]), visited), a);
    }
  }

  lemma InEither(s: seq<Address>, t: seq<Address>, a: Address)
    ensures a in s + t <==> a in s || a in t
  {
  }

  lemma InPrefixed(i: nat, addresses: seq<Address>, a: Address)
    requires a in addresses
    ensures Address([i] + a.path, a.route) in Prefixed(i, addresses)
  {
    var k :| 0 <= k < |addresses| && addresses[k] == a;
    assert Prefixed(i, addresses)[k] == Address([i] + a.path, a.route);
  }

  // ----- the meaning of a compiled proxy --------------------------------------------------------------------

  lemma {:induction false} OwnRoutesAt(env: Env, root: Root, ns: string, conds: seq<MatchCondition>,
                                       rs: seq<RouteSpec>, j: nat)
    requires OwnRoutes(env, root, ns, conds, rs).Some? && j < |rs|
    ensures BuildRoute(env, root, ns, conds, rs[j]).route == Some(OwnRoutes(env, root, ns, conds, rs).value[j])
  {
    var first, rest := BuildRoute(env, root, ns, conds, rs[0]).route, OwnRoutes(env, root, ns, conds, rs[1..]);
    assert OwnRoutes(env, root, ns, conds, rs).value == [first.value] + rest.value;
    if j > 0 {
      OwnRoutesAt(env, root, ns, conds, rs[1..], j - 1);
      assert rs[1..][j - 1] == rs[j];
    }
  }

  /** The own routes of a proxy, from some position on, in their final form. */
  lemma {:induction false} OwnFormsFrom(env: Env, root: Root, name: Name, conds: seq<MatchCondition>,
                                        visited: seq<Name>, j: nat)
    requires name in env.proxies && j <= |env.proxies[name].routes|
    requires OwnRoutes(env, root, env.proxies[name].name.namespace, conds, env.proxies[name].routes).Some?
    ensures forall k :: 0 <= k < |OwnAddresses(|env.proxies[name].routes|)[j..]| ==>
              IsAddress(env, name, OwnAddresses(|env.proxies[name].routes|)[j..][k])
    ensures var p := env.proxies[name];
            var own := OwnRoutes(env, root, p.name.namespace, conds, p.routes).value;
            var below := EmitIncludes(env, root, p, p.includes, conds, visited + [name]);
            ExpandIn(own[j..], below + own) == FormsOf(env, root, name, conds, visited, OwnAddresses(|p.routes|)[j..])
    decreases |env.proxies[name].routes| - j
  {
    var p := env.proxies[name];
    var addresses := OwnAddresses(|p.routes|);
    assert NodeAt(env, name, []) == Some(name);
    if j < |p.routes| {
      var own := OwnRoutes(env, root, p.name.namespace, conds, p.routes).value;
      OwnFormsFrom(env, root, name, conds, visited, j + 1);
      OwnFormsAt(env, root, name, conds, visited, j);
      assert own[j..][0] == own[j] && own[j..][1..] == own[j + 1..];
      assert addresses[j..][0] == Address([], j) && addresses[j..][1..] == addresses[j + 1..];
    }
  }

  lemma OwnFormsAt(env: Env, root: Root, name: Name, conds: seq<MatchCondition>, visited: seq<Name>, j: nat)
    requires name in env.proxies && j < |env.proxies[name].routes|
    requires OwnRoutes(env, root, env.proxies[name].name.namespace, conds, env.proxies[name].routes).Some?
    ensures IsAddress(env, name, Address([], j))
    ensures var p := env.proxies[name];
            var own := OwnRoutes(env, root, p.name.namespace, conds, p.routes).value;
            var below := EmitIncludes(env, root, p, p.includes, conds, visited + [name]);
            FormsAt(env, root, name, conds, visited, Address([], j)) == Forms(own[j], Lone(own[j], below + own))
  {
    var p := env.proxies[name];
    assert NodeAt(env, name, []) == Some(name);
    assert conds + CondsAt(env, name, []) == conds;
    OwnRoutesAt(env, root, p.name.namespace, conds, p.routes, j);
  }

  /** The compiled routes of a proxy below which nothing is wrong are the routes of its
      addresses, each in its final form, and nothing else. */
  lemma {:induction false} EmitIsForms(env: Env, root: Root, name: Name, conds: seq<MatchCondition>, visited: seq<Name>)
    requires name in env.proxies && Absolute(conds) && AllWell(env, root, name, conds, visited)
    requires forall k :: 0 <= k < |Addresses(env, name, visited)| ==>
               IsAddress(env, name, Addresses(env, name, visited)[k])
    ensures Emit(env, root, name, conds, visited) ==
            FormsOf(env, root, name, conds, visited, Addresses(env, name, visited))
    decreases env.proxies.Keys - Seen(visited), 0, 0
  {
    AllWellHere(env, root, name, conds, visited);
    SeenGrows(env.proxies.Keys, visited, name);
    var p := env.proxies[name];
    EmitIsBelowAndOwn(env, root, name, conds, visited);
    EmitBelowIsForms(env, root, name, conds, visited, 0);
    OwnFormsFrom(env, root, name, conds, visited, 0);
    var addresses := OwnAddresses(|p.routes|);
    assert addresses[0..] == addresses && p.includes[0..] == p.includes;
    var own := OwnRoutes(env, root, p.name.namespace, conds, p.routes).value;
    assert own[0..] == own;
    FormsOfConcat(env, root, name, conds, visited, AddressesBelow(env, p, 0, visited + [name]), addresses);
  }

  lemma {:induction false} EmitBelowIsForms(env: Env, root: Root, name: Name, conds: seq<MatchCondition>,
                                            visited: seq<Name>, i: nat)
    requires name in env.proxies && Absolute(conds) && AllWell(env, root, name, conds, visited)
    requires name !in visited && i <= |env.proxies[name].includes|
    ensures forall k :: 0 <= k < |AddressesBelow(env, env.proxies[name], i, visited + [name])| ==>
              IsAddress(env, name, AddressesBelow(env, env.proxies[name], i, visited + [name])[k])
    ensures var p := env.proxies[name];
            EmitIncludes(env, root, p, p.includes[i..], conds, visited + [name]) ==
            FormsOf(env, root, name, conds, visited, AddressesBelow(env, p, i, visited + [name]))
    decreases env.proxies.Keys - Seen(visited + [name]), 1, |env.proxies[name].includes| - i
  {
    var p := env.proxies[name];
    AddressesBelowSound(env, name, i, visited + [name]);
    if i < |p.includes| {
      AllWellBelow(env, root, name, conds, visited, i);
      var inc := p.includes[i];
      var target := TargetOf(p, inc);
      AddressesSound(env, target, visited + [name]);
      assert Absolute(conds + inc.conditions);
      EmitIsForms(env, root, target, conds + inc.conditions, visited + [name]);
      EmitBelowIsForms(env, root, name, conds, visited, i + 1);
      FormsBelowFrom(env, root, name, conds, visited, i);
      IncludesFrom(env, root, p, i, conds, visited + [name]);
    }
  }

  lemma IncludesFrom(env: Env, root: Root, p: Proxy, i: nat, conds: seq<MatchCondition>, visited: seq<Name>)
    requires i < |p.includes| && OutcomeOf(env, p, p.includes[i]) == Follow
    ensures EmitIncludes(env, root, p, p.includes[i..], conds, visited) ==
            Emit(env, root, TargetOf(p, p.includes[i]), conds + p.includes[i].conditions, visited)
            + EmitIncludes(env, root, p, p.includes[i + 1..], conds, visited)
  {
    assert p.includes[i..][1..] == p.includes[i + 1..];
  }

  ghost predicate AreAddresses(env: Env, name: Name, addresses: seq<Address>)
    requires name in env.proxies
  {
    forall k :: 0 <= k < |addresses| ==> IsAddress(env, name, addresses[k])
  }

  lemma FormsBelowFrom(env: Env, root: Root, name: Name, conds: seq<MatchCondition>, visited: seq<Name>, i: nat)
    requires name in env.proxies && i < |env.proxies[name].includes|
    requires OutcomeOf(env, env.proxies[name], env.proxies[name].includes[i]) == Follow
    ensures var p, path := env.proxies[name], visited + [name];
            var inc, target := p.includes[i], TargetOf(p, p.includes[i]);
            && AreAddresses(env, target, Addresses(env, target, path))
            && AreAddresses(env, name, AddressesBelow(env, p, i, path))
            && AreAddresses(env, name, AddressesBelow(env, p, i + 1, path))
            && FormsOf(env, root, name, conds, visited, AddressesBelow(env, p, i, path)) ==
               FormsOf(env, root, target, conds + inc.conditions, path, Addresses(env, target, path))
               + FormsOf(env, root, name, conds, visited, AddressesBelow(env, p, i + 1, path))
  {
    var p, path := env.proxies[name], visited + [name];
    var addresses := Addresses(env, TargetOf(p, p.includes[i]), path);
    AddressesSound(env, TargetOf(p, p.includes[i]), path);
    AddressesBelowSound(env, name, i, path);
    AddressesBelowSound(env, name, i + 1, path);
    FormsOfPrefixed(env, root, name, conds, visited, i, addresses);
    FormsOfConcat(env, root, name, conds, visited, Prefixed(i, addresses), AddressesBelow(env, p, i + 1, path));
  }

  /** Compiler meaning, from a root: if nothing is wrong below it, its routes are the forms
      of the routes at its addresses, where the addresses are all the pairs of an include
      path and a route of the proxy at its end, each listed once; and the route at an
      address has the slash-collapsed concatenation of all prefixes and the concatenation
      of all header conditions on the path, in order. */
  lemma CompiledMeaning(env: Env, root: Root, name: Name)
    requires name in env.proxies && AllWell(env, root, name, [], [])
    ensures var addresses := Addresses(env, name, []);
            && NoRepeats(addresses)
            && (forall a :: a in addresses <==> IsAddress(env, name, a))
            && (forall k :: 0 <= k < |addresses| ==> IsAddress(env, name, addresses[k]))
            && Emit(env, root, name, [], []) == FormsOf(env, root, name, [], [], addresses)
  {
    AddressesSound(env, name, []);
    var addresses := Addresses(env, name, []);
    forall a
      ensures a in addresses <==> IsAddress(env, name, a)
    {
      if IsAddress(env, name, a) {
        AddressesComplete(env, root, name, [], [], a);
      }
    }
    EmitIsForms(env, root, name, [], []);
  }

  /** The route that a specification becomes below a chain of conditions: path and headers
      from the whole chain, targets from its services, the rest its own. */
  ghost predicate IsRouteFor(env: Env, root: Root, ns: string, conds: seq<MatchCondition>, r: RouteSpec, route: Route)
  {
    var chain := conds + r.conditions;
    && route.path == Prefix(MergedPrefix(chain), StringPrefix)
    && route.headers == MergedHeaders(chain) + WildcardMatch(root.fqdn)
    && route.rewrite == (if r.replacements == [] then "" else RewriteFor(r.replacements, MergedPrefix(chain)))
    && route.clusters == ClustersOf(env, ns, r.services, false)
    && AsSeq(route.mirror) == ClustersOf(env, ns, r.services, true)
    && route.redirect == r.redirect && route.policy == r.policy
    && route.directResponse == (if route.clusters == [] && r.redirect.None? then Some(503) else None)
    && (route.httpsUpgrade <==> root.enforceTLS && (r.permitInsecure ==> env.disablePermitInsecure))
  }

  lemma BuiltRouteIsFor(env: Env, root: Root, ns: string, conds: seq<MatchCondition>, r: RouteSpec)
    ensures var b := BuildRoute(env, root, ns, conds, r);
            b.route.Some? ==> Kept(env, ns, r.services) && IsRouteFor(env, root, ns, conds, r, b.route.value)
  {
    RouteTargets(env, ns, r.services);
  }

  /** The route at an address, in all its parts. */
  lemma RouteAtAddress(env: Env, root: Root, name: Name, a: Address)
    requires name in env.proxies && AllWell(env, root, name, [], []) && IsAddress(env, name, a)
    ensures var p := env.proxies[NodeAt(env, name, a.path).value];
            var b := BuiltAt(env, root, name, [], a);
            && b.route.Some?
            && Kept(env, p.name.namespace, p.routes[a.route].services)
            && IsRouteFor(env, root, p.name.namespace, CondsAt(env, name, a.path), p.routes[a.route], b.route.value)
  {
    assert WellAt(env, root, name, [], [], a.path);
    var p := env.proxies[NodeAt(env, name, a.path).value];
    BuiltAtIs(env, root, name, a);
    OwnRouteIsFor(env, root, p.name.namespace, CondsAt(env, name, a.path), p.routes, a.route);
  }

  lemma BuiltAtIs(env: Env, root: Root, name: Name, a: Address)
    requires name in env.proxies && IsAddress(env, name, a)
    ensures var p := env.proxies[NodeAt(env, name, a.path).value];
            && [] + CondsAt(env, name, a.path) == CondsAt(env, name, a.path)
            && BuiltAt(env, root, name, [], a) ==
               BuildRoute(env, root, p.name.namespace, CondsAt(env, name, a.path), p.routes[a.route])
  {
    NothingBefore(CondsAt(env, name, a.path));
  }

  lemma NothingBefore(conds: seq<MatchCondition>)
    ensures [] + conds == conds
  {
  }

  lemma OwnRouteIsFor(env: Env, root: Root, ns: string, conds: seq<MatchCondition>, rs: seq<RouteSpec>, j: nat)
    requires j < |rs| && OwnRoutes(env, root, ns, conds, rs).Some?
    ensures var b := BuildRoute(env, root, ns, conds, rs[j]);
            && b.route.Some? && Kept(env, ns, rs[j].services)
            && IsRouteFor(env, root, ns, conds, rs[j], b.route.value)
  {
    OwnRoutesAt(env, root, ns, conds, rs, j);
    BuiltRouteIsFor(env, root, ns, conds, rs[j]);
  }
}
