/** Where every compiled route comes from, for any set of proxies, with errors and cycles: the
    forms at the addresses that the walk compiles, and the placeholders of the includes that
    it misses there (internal/dag/httpproxy_processor.go). */
module Origins {
  import opened Text
  import opened Dag
  import opened Kube
  import opened Conditions
  import opened Expansion
  import opened Rewrite
  import opened Proxies
  import opened Compiler
  import opened Services
  import opened Meaning

  /** A call for the proxy keeps what it compiles. */
  ghost predicate Keeps(env: Env, root: Root, name: Name, conds: seq<MatchCondition>, visited: seq<Name>)
    requires name in env.proxies
  {
    var p := env.proxies[name];
    && name !in visited && !IncludesIdentical(p.includes)
    && OwnRoutes(env, root, p.name.namespace, conds, p.routes).Some?
  }

  ghost predicate Follows(env: Env, name: Name, i: nat)
    requires name in env.proxies
  {
    var p := env.proxies[name];
    i < |p.includes| && OutcomeOf(env, p, p.includes[i]) == Follow
  }

  /** The walk follows the path to its end, and every call on it keeps what it compiles. */
  ghost predicate IsCompiled(env: Env, root: Root, name: Name, conds: seq<MatchCondition>, visited: seq<Name>,
                             path: seq<nat>)
    requires name in env.proxies
    decreases |path|
  {
    && Keeps(env, root, name, conds, visited)
    && (path != [] ==>
          && Follows(env, name, path[0])
          && var inc := env.proxies[name].includes[path[0]];
             IsCompiled(env, root, TargetOf(env.proxies[name], inc), conds + inc.conditions, visited + [name],
                        path[1..]))
  }

  /** An origin of compiled routes: a route at an address, or an include that is missing at the
      end of a path. */
  datatype Origin = AtAddress(a: Address) | AtMissing(path: seq<nat>, i: nat)

  ghost predicate IsCompiledAddress(env: Env, root: Root, name: Name, conds: seq<MatchCondition>, visited: seq<Name>,
                                    a: Address)
    requires name in env.proxies
  {
    IsCompiled(env, root, name, conds, visited, a.path) && IsAddress(env, name, a)
  }

  /** Include i of the proxy at the end of the path has no target. */
  ghost predicate IsMissing(env: Env, name: Name, path: seq<nat>, i: nat)
    requires name in env.proxies
  {
    var n := NodeAt(env, name, path);
    n.Some? && i < |env.proxies[n.value].includes|
    && OutcomeOf(env, env.proxies[n.value], env.proxies[n.value].includes[i]) == NotFound
  }

  ghost function MissingAt(env: Env, name: Name, path: seq<nat>, i: nat): (inc: Include)
    requires name in env.proxies && IsMissing(env, name, path, i)
  {
    env.proxies[NodeAt(env, name, path).value].includes[i]
  }

  ghost predicate IsOrigin(env: Env, root: Root, name: Name, conds: seq<MatchCondition>, visited: seq<Name>,
                           o: Origin, form: Route)
    requires name in env.proxies
  {
    match o
    case AtAddress(a) =>
      IsCompiledAddress(env, root, name, conds, visited, a) && form in FormsAt(env, root, name, conds, visited, a)
    case AtMissing(path, i) =>
      && IsCompiled(env, root, name, conds, visited, path)
      && IsMissing(env, name, path, i) && form in Placeholder(MissingAt(env, name, path, i))
  }

  // ----- one include further down ---------------------------------------------------------------------

  ghost function Shifted(i: nat, o: Origin): (s: Origin)
  {
    match o
    case AtAddress(a) => AtAddress(Address([i] + a.path, a.route))
    case AtMissing(path, j) => AtMissing([i] + path, j)
  }

  lemma CompiledShift(env: Env, root: Root, name: Name, conds: seq<MatchCondition>, visited: seq<Name>, i: nat,
                      path: seq<nat>)
    requires name in env.proxies && Keeps(env, root, name, conds, visited) && Follows(env, name, i)
    ensures var inc := env.proxies[name].includes[i];
            IsCompiled(env, root, name, conds, visited, [i] + path) <==>
            IsCompiled(env, root, TargetOf(env.proxies[name], inc), conds + inc.conditions, visited + [name], path)
  {
    assert ([i] + path)[1..] == path;
  }

  lemma AddressShift(env: Env, root: Root, name: Name, conds: seq<MatchCondition>, visited: seq<Name>, i: nat,
                     a: Address, form: Route)
    requires name in env.proxies && Keeps(env, root, name, conds, visited) && Follows(env, name, i)
    ensures var inc := env.proxies[name].includes[i];
            IsOrigin(env, root, TargetOf(env.proxies[name], inc), conds + inc.conditions, visited + [name],
                     AtAddress(a), form) <==>
            IsOrigin(env, root, name, conds, visited, AtAddress(Address([i] + a.path, a.route)), form)
  {
    CompiledShift(env, root, name, conds, visited, i, a.path);
    PathShift(env, name, i, a.path);
    if IsAddress(env, TargetOf(env.proxies[name], env.proxies[name].includes[i]), a) {
      FormsShift(env, root, name, conds, visited, i, a);
    }
  }

  /** An origin below an include is one below the including proxy, and the other way round. */
  lemma OriginShift(env: Env, root: Root, name: Name, conds: seq<MatchCondition>, visited: seq<Name>, i: nat,
                    o: Origin, form: Route)
    requires name in env.proxies && Keeps(env, root, name, conds, visited) && Follows(env, name, i)
    ensures var inc := env.proxies[name].includes[i];
            IsOrigin(env, root, TargetOf(env.proxies[name], inc), conds + inc.conditions, visited + [name], o,
                     form) <==>
            IsOrigin(env, root, name, conds, visited, Shifted(i, o), form)
  {
    match o
    case AtAddress(a) =>
      AddressShift(env, root, name, conds, visited, i, a, form);
    case AtMissing(path, _) =>
      CompiledShift(env, root, name, conds, visited, i, path);
      PathShift(env, name, i, path);
  }

  // ----- every compiled route has an origin -------------------------------------------------------------

  lemma EmitKeeps(env: Env, root: Root, name: Name, conds: seq<MatchCondition>, visited: seq<Name>, form: Route)
    requires name in env.proxies && form in Emit(env, root, name, conds, visited)
    ensures Keeps(env, root, name, conds, visited)
  {
  }

  lemma {:induction false} OriginOf(env: Env, root: Root, name: Name, conds: seq<MatchCondition>, visited: seq<Name>,
                                    form: Route)
    returns (o: Origin)
    requires name in env.proxies && Absolute(conds) && form in Emit(env, root, name, conds, visited)
    ensures IsOrigin(env, root, name, conds, visited, o, form)
    decreases env.proxies.Keys - Seen(visited), 0, 0
  {
    var p := env.proxies[name];
    EmitKeeps(env, root, name, conds, visited, form);
    SeenGrows(env.proxies.Keys, visited, name);
    EmitIsBelowAndOwn(env, root, name, conds, visited);
    if form in EmitIncludes(env, root, p, p.includes, conds, visited + [name]) {
      assert p.includes[0..] == p.includes;
      o := OriginBelow(env, root, name, conds, visited, 0, form);
    } else {
      o := OwnOrigin(env, root, name, conds, visited, form);
    }
  }

  lemma OwnOrigin(env: Env, root: Root, name: Name, conds: seq<MatchCondition>, visited: seq<Name>, form: Route)
    returns (o: Origin)
    requires name in env.proxies && Keeps(env, root, name, conds, visited)
    requires var p := env.proxies[name];
             var own := OwnRoutes(env, root, p.name.namespace, conds, p.routes).value;
             form in ExpandIn(own, EmitIncludes(env, root, p, p.includes, conds, visited + [name]) + own)
    ensures IsOrigin(env, root, name, conds, visited, o, form)
  {
    var p := env.proxies[name];
    var own := OwnRoutes(env, root, p.name.namespace, conds, p.routes).value;
    var all := EmitIncludes(env, root, p, p.includes, conds, visited + [name]) + own;
    var x :| 0 <= x < |ExpandIn(own, all)| && ExpandIn(own, all)[x] == form;
    var j := ExpandInOrigin(own, all, x);
    OwnFormsAt(env, root, name, conds, visited, j);
    o := AtAddress(Address([], j));
  }

  lemma {:induction false} OriginBelow(env: Env, root: Root, name: Name, conds: seq<MatchCondition>,
                                       visited: seq<Name>, i: nat, form: Route)
    returns (o: Origin)
    requires name in env.proxies && Absolute(conds) && Keeps(env, root, name, conds, visited)
    requires i <= |env.proxies[name].includes|
    requires var p := env.proxies[name];
             form in EmitIncludes(env, root, p, p.includes[i..], conds, visited + [name])
    ensures IsOrigin(env, root, name, conds, visited, o, form)
    decreases env.proxies.Keys - Seen(visited + [name]), 1, |env.proxies[name].includes| - i
  {
    var p := env.proxies[name];
    var inc := p.includes[i];
    assert p.includes[i..][0] == inc && p.includes[i..][1..] == p.includes[i + 1..];
    if form in EmitIncludes(env, root, p, p.includes[i + 1..], conds, visited + [name]) {
      o := OriginBelow(env, root, name, conds, visited, i + 1, form);
    } else if OutcomeOf(env, p, inc) == Follow {
      OutcomeIsAbsolute(env, p, inc);
      AbsoluteConcat(conds, inc.conditions);
      var below := OriginOf(env, root, TargetOf(p, inc), conds + inc.conditions, visited + [name], form);
      OriginShift(env, root, name, conds, visited, i, below, form);
      o := Shifted(i, below);
    } else {
      o := AtMissing([], i);
    }
  }

  // ----- and every origin is compiled -------------------------------------------------------------------

  lemma {:induction false} InIncludes(env: Env, root: Root, p: Proxy, from: nat, i: nat, conds: seq<MatchCondition>,
                                      visited: seq<Name>, form: Route)
    requires from <= i < |p.includes|
    requires match OutcomeOf(env, p, p.includes[i])
             case NotFound => form in Placeholder(p.includes[i])
             case Follow =>
               form in Emit(env, root, TargetOf(p, p.includes[i]), conds + p.includes[i].conditions, visited)
             case _ => false
    ensures form in EmitIncludes(env, root, p, p.includes[from..], conds, visited)
    decreases i - from
  {
    assert p.includes[from..][0] == p.includes[from] && p.includes[from..][1..] == p.includes[from + 1..];
    if from < i {
      InIncludes(env, root, p, from + 1, i, conds, visited, form);
    }
  }

  lemma BelowIsEmitted(env: Env, root: Root, name: Name, conds: seq<MatchCondition>, visited: seq<Name>, form: Route)
    requires name in env.proxies && Absolute(conds) && Keeps(env, root, name, conds, visited)
    requires var p := env.proxies[name];
             form in EmitIncludes(env, root, p, p.includes[0..], conds, visited + [name])
    ensures form in Emit(env, root, name, conds, visited)
  {
    assert env.proxies[name].includes[0..] == env.proxies[name].includes;
    EmitIsBelowAndOwn(env, root, name, conds, visited);
  }

  lemma OwnIsEmitted(env: Env, root: Root, name: Name, conds: seq<MatchCondition>, visited: seq<Name>, j: nat,
                     form: Route)
    requires name in env.proxies && Absolute(conds) && Keeps(env, root, name, conds, visited)
    requires j < |env.proxies[name].routes| && IsAddress(env, name, Address([], j))
    requires form in FormsAt(env, root, name, conds, visited, Address([], j))
    ensures form in Emit(env, root, name, conds, visited)
  {
    var p := env.proxies[name];
    var own := OwnRoutes(env, root, p.name.namespace, conds, p.routes).value;
    EmitIsBelowAndOwn(env, root, name, conds, visited);
    OwnFormsAt(env, root, name, conds, visited, j);
    ExpandInContains(own, EmitIncludes(env, root, p, p.includes, conds, visited + [name]) + own, j, form);
  }

  ghost function PathOf(o: Origin): (path: seq<nat>)
  {
    match o
    case AtAddress(a) => a.path
    case AtMissing(path, _) => path
  }

  /** The origin as the proxy at the first include of its path sees it. */
  ghost function Unshifted(o: Origin): (s: Origin)
    requires PathOf(o) != []
    ensures |PathOf(s)| < |PathOf(o)| && o == Shifted(PathOf(o)[0], s)
  {
    assert PathOf(o) == [PathOf(o)[0]] + PathOf(o)[1..];
    match o
    case AtAddress(a) => AtAddress(Address(a.path[1..], a.route))
    case AtMissing(path, i) => AtMissing(path[1..], i)
  }

  lemma OriginUnshift(env: Env, root: Root, name: Name, conds: seq<MatchCondition>, visited: seq<Name>, o: Origin,
                      form: Route)
    requires name in env.proxies && PathOf(o) != [] && IsOrigin(env, root, name, conds, visited, o, form)
    ensures Keeps(env, root, name, conds, visited) && Follows(env, name, PathOf(o)[0])
    ensures var inc := env.proxies[name].includes[PathOf(o)[0]];
            IsOrigin(env, root, TargetOf(env.proxies[name], inc), conds + inc.conditions, visited + [name],
                     Unshifted(o), form)
  {
    OriginShift(env, root, name, conds, visited, PathOf(o)[0], Unshifted(o), form);
  }

  lemma {:induction false} OriginIsEmitted(env: Env, root: Root, name: Name, conds: seq<MatchCondition>,
                                           visited: seq<Name>, o: Origin, form: Route)
    requires name in env.proxies && Absolute(conds) && IsOrigin(env, root, name, conds, visited, o, form)
    ensures form in Emit(env, root, name, conds, visited)
    decreases |PathOf(o)|
  {
    var p := env.proxies[name];
    if PathOf(o) != [] {
      OriginUnshift(env, root, name, conds, visited, o, form);
      var i, inc := PathOf(o)[0], p.includes[PathOf(o)[0]];
      OutcomeIsAbsolute(env, p, inc);
      AbsoluteConcat(conds, inc.conditions);
      OriginIsEmitted(env, root, TargetOf(p, inc), conds + inc.conditions, visited + [name], Unshifted(o), form);
      InIncludes(env, root, p, 0, i, conds, visited + [name], form);
      BelowIsEmitted(env, root, name, conds, visited, form);
    } else if o.AtMissing? {
      assert NodeAt(env, name, []) == Some(name);
      InIncludes(env, root, p, 0, o.i, conds, visited + [name], form);
      BelowIsEmitted(env, root, name, conds, visited, form);
    } else {
      assert NodeAt(env, name, []) == Some(name) && o.a == Address([], o.a.route);
      OwnIsEmitted(env, root, name, conds, visited, o.a.route, form);
    }
  }

  /** What is compiled, for every set of proxies: a route is compiled if and only if it is a form
      of the route at a compiled address, or the placeholder of an include that is missing
      at the end of a compiled path. */
  lemma CompiledExactly(env: Env, root: Root, name: Name, conds: seq<MatchCondition>, visited: seq<Name>, form: Route)
    requires name in env.proxies && Absolute(conds)
    ensures form in Emit(env, root, name, conds, visited) <==>
            exists o :: IsOrigin(env, root, name, conds, visited, o, form)
  {
    if form in Emit(env, root, name, conds, visited) {
      var o := OriginOf(env, root, name, conds, visited, form);
    }
    if o :| IsOrigin(env, root, name, conds, visited, o, form) {
      OriginIsEmitted(env, root, name, conds, visited, o, form);
    }
  }

  /** If nothing is wrong below a proxy, every path is compiled. */
  lemma {:induction false} WellIsCompiled(env: Env, root: Root, name: Name, conds: seq<MatchCondition>,
                                          visited: seq<Name>, path: seq<nat>)
    requires name in env.proxies && AllWell(env, root, name, conds, visited) && NodeAt(env, name, path).Some?
    ensures IsCompiled(env, root, name, conds, visited, path)
    decreases |path|
  {
    AllWellHere(env, root, name, conds, visited);
    if path != [] {
      var p := env.proxies[name];
      var inc := p.includes[path[0]];
      AllWellBelow(env, root, name, conds, visited, path[0]);
      WellIsCompiled(env, root, TargetOf(p, inc), conds + inc.conditions, visited + [name], path[1..]);
    }
  }

  // ----- the route at a compiled address ----------------------------------------------------------------

  /** The last call on a compiled path keeps its routes. */
  lemma {:induction false} EndKeeps(env: Env, root: Root, name: Name, conds: seq<MatchCondition>, visited: seq<Name>,
                                    path: seq<nat>)
    requires name in env.proxies && IsCompiled(env, root, name, conds, visited, path)
    ensures NodeAt(env, name, path).Some?
    ensures var p := env.proxies[NodeAt(env, name, path).value];
            OwnRoutes(env, root, p.name.namespace, conds + CondsAt(env, name, path), p.routes).Some?
    decreases |path|
  {
    if path == [] {
      assert NodeAt(env, name, []) == Some(name) && conds + CondsAt(env, name, []) == conds;
    } else {
      var p := env.proxies[name];
      var inc := p.includes[path[0]];
      EndKeeps(env, root, TargetOf(p, inc), conds + inc.conditions, visited + [name], path[1..]);
      PathShift(env, name, path[0], path[1..]);
      assert [path[0]] + path[1..] == path;
      Regroup(conds, inc.conditions, CondsAt(env, TargetOf(p, inc), path[1..]));
    }
  }

  lemma {:induction false} CondsAreAbsolute(env: Env, name: Name, path: seq<nat>)
    requires name in env.proxies && NodeAt(env, name, path).Some?
    ensures Absolute(CondsAt(env, name, path))
    decreases |path|
  {
    if path != [] {
      var inc := env.proxies[name].includes[path[0]];
      CondsAreAbsolute(env, TargetOf(env.proxies[name], inc), path[1..]);
    }
  }

  /** The route at a compiled address, in all its parts, whatever is wrong elsewhere. */
  lemma RouteAtCompiledAddress(env: Env, root: Root, name: Name, a: Address)
    requires name in env.proxies && IsCompiledAddress(env, root, name, [], [], a)
    ensures var p := env.proxies[NodeAt(env, name, a.path).value];
            var b := BuiltAt(env, root, name, [], a);
            && b.route.Some? && IsPlain(b.route.value)
            && Kept(env, p.name.namespace, p.routes[a.route].services)
            && IsRouteFor(env, root, p.name.namespace, CondsAt(env, name, a.path), p.routes[a.route], b.route.value)
  {
    var p := env.proxies[NodeAt(env, name, a.path).value];
    EndKeeps(env, root, name, [], [], a.path);
    BuiltAtIs(env, root, name, a);
    OwnRouteIsFor(env, root, p.name.namespace, CondsAt(env, name, a.path), p.routes, a.route);
    CondsAreAbsolute(env, name, a.path);
    BuiltIsNormal(env, root, p.name.namespace, CondsAt(env, name, a.path), p.routes[a.route]);
  }

  /** So is a placeholder. */
  lemma PlaceholderIsPlain(env: Env, name: Name, path: seq<nat>, i: nat, form: Route)
    requires name in env.proxies && IsMissing(env, name, path, i) && form in Placeholder(MissingAt(env, name, path, i))
    ensures IsPlain(form)
  {
    var inc := MissingAt(env, name, path, i);
    OutcomeIsAbsolute(env, env.proxies[NodeAt(env, name, path).value], inc);
    AbsoluteMergesToNormal(inc.conditions);
  }
}
