/** HTTPProxy metrics: counting the status updates of a build
    (internal/sesame/metrics.go) and publishing the counts as gauges
    (internal/metrics/metrics.go). */
module Metrics {
  import opened Issues
  import opened Status

  datatype Meta = Meta(vhost: string, namespace: string)

  datatype RouteMetric = RouteMetric(
    total: map<Meta, nat>,
    valid: map<Meta, nat>,
    invalid: map<Meta, nat>,
    orphaned: map<Meta, nat>,
    root: map<Meta, nat>)

  const NO_METRIC := RouteMetric(map[], map[], map[], map[], map[])

  // ----- counting -----------------------------------------------------------------------

  /** How an update is counted: by the status of its Valid condition. */
  datatype Class = IsValid | IsInvalid | IsOrphaned | IsUnknown

  ghost function ClassOf(u: ProxyUpdate): (c: Class)
  {
    var dc := ConditionIn(u, VALID);
    match dc.status
    case ConditionTrue => IsValid
    case ConditionFalse => if HasError(dc, OrphanedError) then IsOrphaned else IsInvalid
    case ConditionUnknown => IsUnknown
  }

  /** The keys that updates of a class are counted under, one for each update. */
  ghost function KeysOf(us: seq<ProxyUpdate>, c: Class): (keys: seq<Meta>)
  {
    if us == [] then []
    else
      var u := us[|us| - 1];
      KeysOf(us[..|us| - 1], c) +
      if ClassOf(u) != c then []
      else [Meta(if c == IsOrphaned then "" else u.vhost, u.fullname.namespace)]
  }

  ghost function TotalKeys(us: seq<ProxyUpdate>): (keys: seq<Meta>)
  {
    if us == [] then [] else TotalKeys(us[..|us| - 1]) + [Meta("", us[|us| - 1].fullname.namespace)]
  }

  ghost function RootKeys(us: seq<ProxyUpdate>): (keys: seq<Meta>)
  {
    if us == [] then []
    else
      var u := us[|us| - 1];
      RootKeys(us[..|us| - 1]) + if u.vhost == "" then [] else [Meta(u.vhost, u.fullname.namespace)]
  }

  /** How often each key occurs. */
  ghost function Tally(keys: seq<Meta>): (m: map<Meta, nat>)
  {
    map k | k in keys :: multiset(keys)[k]
  }

  function Incremented(m: map<Meta, nat>, k: Meta): (m': map<Meta, nat>)
  {
    m[k := (if k in m then m[k] else 0) + 1]
  }

  lemma TallySnoc(keys: seq<Meta>, k: Meta)
    ensures Tally(keys + [k]) == Incremented(Tally(keys), k)
  {
    assert multiset(keys + [k]) == multiset(keys) + multiset{k};
    assert k !in keys ==> multiset(keys)[k] == 0;
  }

  /** The counts of a list of updates. */
  ghost function TallyOf(us: seq<ProxyUpdate>): (m: RouteMetric)
  {
    RouteMetric(Tally(TotalKeys(us)), Tally(KeysOf(us, IsValid)), Tally(KeysOf(us, IsInvalid)),
                Tally(KeysOf(us, IsOrphaned)), Tally(RootKeys(us)))
  }

  /** The counters after one more update: its class, and the total of its namespace. */
  ghost function Counted(u: ProxyUpdate, m: RouteMetric): (out: RouteMetric)
  {
    var here := Meta(u.vhost, u.fullname.namespace);
    var all := Meta("", u.fullname.namespace);
    RouteMetric(
      Incremented(m.total, all),
      if ClassOf(u) == IsValid then Incremented(m.valid, here) else m.valid,
      if ClassOf(u) == IsInvalid then Incremented(m.invalid, here) else m.invalid,
      if ClassOf(u) == IsOrphaned then Incremented(m.orphaned, all) else m.orphaned,
      m.root)
  }

  method CalcMetrics(u: ProxyUpdate, m: RouteMetric) returns (out: RouteMetric)
    ensures out == Counted(u, m)
  {
    out := m;
    var validCond := ConditionIn(u, VALID);
    match validCond.status {
      case ConditionTrue =>
        out := out.(valid := Incremented(out.valid, Meta(u.vhost, u.fullname.namespace)));
      case ConditionFalse =>
        var orphan := GetError(validCond, OrphanedError);
        if orphan.Some? {
          out := out.(orphaned := Incremented(out.orphaned, Meta("", u.fullname.namespace)));
        } else {
          out := out.(invalid := Incremented(out.invalid, Meta(u.vhost, u.fullname.namespace)));
        }
      case ConditionUnknown =>
    }
    out := out.(total := Incremented(out.total, Meta("", u.fullname.namespace)));
  }

  lemma TalliedNext(us: seq<ProxyUpdate>, u: ProxyUpdate)
    ensures var all := us + [u];
            var key := Meta(u.vhost, u.fullname.namespace);
            && Tally(TotalKeys(all)) == Incremented(Tally(TotalKeys(us)), Meta("", u.fullname.namespace))
            && Tally(RootKeys(all)) ==
              (if u.vhost == "" then Tally(RootKeys(us)) else Incremented(Tally(RootKeys(us)), key))
            && forall c :: Tally(KeysOf(all, c)) ==
                 if ClassOf(u) != c then Tally(KeysOf(us, c))
                 else Incremented(Tally(KeysOf(us, c)), if c == IsOrphaned then key.(vhost := "") else key)
  {
    TalliedTotal(us, u);
    TalliedRoot(us, u);
    forall c
      ensures Tally(KeysOf(us + [u], c)) ==
              if ClassOf(u) != c then Tally(KeysOf(us, c))
              else Incremented(Tally(KeysOf(us, c)),
                               Meta(if c == IsOrphaned then "" else u.vhost, u.fullname.namespace))
    {
      TalliedClass(us, u, c);
    }
  }

  lemma TalliedTotal(us: seq<ProxyUpdate>, u: ProxyUpdate)
    ensures Tally(TotalKeys(us + [u])) == Incremented(Tally(TotalKeys(us)), Meta("", u.fullname.namespace))
  {
    assert (us + [u])[..|us + [u]| - 1] == us;
    TallySnoc(TotalKeys(us), Meta("", u.fullname.namespace));
  }

  lemma TalliedRoot(us: seq<ProxyUpdate>, u: ProxyUpdate)
    ensures Tally(RootKeys(us + [u])) ==
            if u.vhost == "" then Tally(RootKeys(us))
              else Incremented(Tally(RootKeys(us)), Meta(u.vhost, u.fullname.namespace))
  {
    assert (us + [u])[..|us + [u]| - 1] == us;
    TallySnoc(RootKeys(us), Meta(u.vhost, u.fullname.namespace));
    assert RootKeys(us) + [] == RootKeys(us);
  }

  lemma TalliedClass(us: seq<ProxyUpdate>, u: ProxyUpdate, c: Class)
    ensures Tally(KeysOf(us + [u], c)) ==
            if ClassOf(u) != c then Tally(KeysOf(us, c))
            else Incremented(Tally(KeysOf(us, c)), Meta(if c == IsOrphaned then "" else u.vhost, u.fullname.namespace))
  {
    assert (us + [u])[..|us + [u]| - 1] == us;
    assert KeysOf(us, c) + [] == KeysOf(us, c);
    TallySnoc(KeysOf(us, c), Meta(if c == IsOrphaned then "" else u.vhost, u.fullname.namespace));
  }

  ghost function CountedWithRoot(u: ProxyUpdate, m: RouteMetric): (out: RouteMetric)
  {
    var key := Meta(u.vhost, u.fullname.namespace);
    Counted(u, m).(root := if u.vhost == "" then m.root else Incremented(m.root, key))
  }

  lemma TallyOfSnoc(us: seq<ProxyUpdate>, u: ProxyUpdate)
    ensures TallyOf(us + [u]) == CountedWithRoot(u, TallyOf(us))
  {
    TalliedNext(us, u);
  }

  lemma TallyOfStep(us: seq<ProxyUpdate>, i: nat)
    requires i < |us|
    ensures TallyOf(us[..i + 1]) == CountedWithRoot(us[i], TallyOf(us[..i]))
  {
    assert us[..i + 1] == us[..i] + [us[i]];
    TallyOfSnoc(us[..i], us[i]);
  }

  method CalculateRouteMetric(updates: seq<ProxyUpdate>) returns (m: RouteMetric)
    ensures m == TallyOf(updates)
  {
    m := NO_METRIC;
    assert Tally([]) == map[];
    for i := 0 to |updates|
      invariant m == TallyOf(updates[..i])
    {
      var u := updates[i];
      TallyOfStep(updates, i);
      m := CalcMetrics(u, m);
      if u.vhost != "" {
        m := m.(root := Incremented(m.root, Meta(u.vhost, u.fullname.namespace)));
      }
    }
    assert updates[..|updates|] == updates;
  }

  // ----- what the counts are -----------------------------------------------------------------

  /** The object is valid: its Valid condition is true, or was never touched. */
  predicate IsShownValid(u: ProxyUpdate)
  {
    "Valid" in u.conditions ==> u.conditions["Valid"].status == ConditionTrue
  }

  ghost predicate IsShownOrphaned(u: ProxyUpdate)
  {
    && "Valid" in u.conditions && u.conditions["Valid"].status == ConditionFalse
    && exists e :: e in u.conditions["Valid"].errors && e.kind == OrphanedError
  }

  ghost predicate IsShownInvalid(u: ProxyUpdate)
  {
    && "Valid" in u.conditions && u.conditions["Valid"].status == ConditionFalse
    && forall e :: e in u.conditions["Valid"].errors ==> e.kind != OrphanedError
  }

  lemma ClassWhen(u: ProxyUpdate)
    ensures ClassOf(u) == IsValid <==> IsShownValid(u)
    ensures ClassOf(u) == IsOrphaned <==> IsShownOrphaned(u)
    ensures ClassOf(u) == IsInvalid <==> IsShownInvalid(u)
  {
    if "Valid" in u.conditions {
      var errors := u.conditions["Valid"].errors;
      if e :| e in errors && e.kind == OrphanedError {
        var i :| 0 <= i < |errors| && errors[i] == e;
        assert errors[i].kind == OrphanedError;
      }
      if i :| 0 <= i < |errors| && errors[i].kind == OrphanedError {
        assert errors[i] in errors;
      }
    }
  }

  predicate IsOf(u: ProxyUpdate, k: Meta)
  {
    u.vhost == k.vhost && u.fullname.namespace == k.namespace
  }

  function CountIn(m: map<Meta, nat>, k: Meta): (n: nat)
  {
    if k in m then m[k] else 0
  }

  lemma CountIncremented(m: map<Meta, nat>, j: Meta, k: Meta)
    ensures CountIn(Incremented(m, j), k) == CountIn(m, k) + if j == k then 1 else 0
  {
  }

  datatype Counter = Valid | Invalid | Orphans | All | Roots

  /** Whether an update counts under a key: by host and namespace for valid and invalid objects and
      for roots, by namespace alone for all objects and for orphans. */
  ghost predicate Counts(c: Counter, u: ProxyUpdate, k: Meta)
  {
    match c
    case Valid => IsShownValid(u) && IsOf(u, k)
    case Invalid => IsShownInvalid(u) && IsOf(u, k)
    case Orphans => IsShownOrphaned(u) && k.vhost == "" && u.fullname.namespace == k.namespace
    case All => k.vhost == "" && u.fullname.namespace == k.namespace
    case Roots => u.vhost != "" && IsOf(u, k)
  }

  ghost function Marked(us: seq<ProxyUpdate>, c: Counter, k: Meta): (marks: seq<bool>)
  {
    seq(|us|, i requires 0 <= i < |us| => Counts(c, us[i], k))
  }

  /** How many of the updates do. */
  ghost function Number(us: seq<ProxyUpdate>, c: Counter, k: Meta): (n: nat)
  {
    |Places(Marked(us, c, k))|
  }

  function Places(marks: seq<bool>): (places: set<int>)
  {
    set i | 0 <= i < |marks| && marks[i]
  }

  lemma NumberSnoc(us: seq<ProxyUpdate>, u: ProxyUpdate, c: Counter, k: Meta)
    ensures Number(us + [u], c, k) == Number(us, c, k) + if Counts(c, u, k) then 1 else 0
  {
    assert Marked(us + [u], c, k) == Marked(us, c, k) + [Counts(c, u, k)];
    PlacesSnoc(Marked(us, c, k), Counts(c, u, k));
  }

  lemma PlacesSnoc(marks: seq<bool>, m: bool)
    ensures |Places(marks + [m])| == |Places(marks)| + if m then 1 else 0
  {
    assert Places(marks + [m]) == Places(marks) + if m then {|marks|} else {};
  }

  function CounterOf(m: RouteMetric, c: Counter): (counter: map<Meta, nat>)
  {
    match c
    case Valid => m.valid
    case Invalid => m.invalid
    case Orphans => m.orphaned
    case All => m.total
    case Roots => m.root
  }

  /** Each counter, under each key, is the number of updates that count there. */
  lemma {:induction false} CountsAre(us: seq<ProxyUpdate>, c: Counter, k: Meta)
    ensures CountIn(CounterOf(TallyOf(us), c), k) == Number(us, c, k)
  {
    if us == [] {
      assert Tally([]) == map[];
    } else {
      var front, u := us[..|us| - 1], us[|us| - 1];
      assert us == front + [u];
      CountsAre(front, c, k);
      TallyOfSnoc(front, u);
      CountsNext(TallyOf(front), u, c, k);
      NumberSnoc(front, u, c, k);
    }
  }

  lemma CountsNext(m: RouteMetric, u: ProxyUpdate, c: Counter, k: Meta)
    ensures CountIn(CounterOf(CountedWithRoot(u, m), c), k) ==
            CountIn(CounterOf(m, c), k) + if Counts(c, u, k) then 1 else 0
  {
    var here, all := Meta(u.vhost, u.fullname.namespace), Meta("", u.fullname.namespace);
    ClassWhen(u);
    CountIncremented(CounterOf(m, c), here, k);
    CountIncremented(CounterOf(m, c), all, k);
  }

  // ----- conservation -----------------------------------------------------------------------

  /** The sum of a counter over the keys of a namespace. */
  ghost function SumOver(m: map<Meta, nat>, ns: string): (n: nat)
    decreases |m.Keys|
  {
    if m == map[] then 0
    else
      var k :| k in m;
      (if k.namespace == ns then m[k] else 0) + SumOver(m - {k}, ns)
  }

  lemma {:induction false} SumOverPick(m: map<Meta, nat>, ns: string, k: Meta)
    requires k in m
    ensures SumOver(m, ns) == (if k.namespace == ns then m[k] else 0) + SumOver(m - {k}, ns)
    decreases |m.Keys|
  {
    var p :| p in m && SumOver(m, ns) == (if p.namespace == ns then m[p] else 0) + SumOver(m - {p}, ns);
    if p != k {
      assert k in m - {p} && p in m - {k};
      SumOverPick(m - {p}, ns, k);
      SumOverPick(m - {k}, ns, p);
      assert m - {p} - {k} == m - {k} - {p};
    }
  }

  lemma SumOverIncremented(m: map<Meta, nat>, ns: string, k: Meta)
    ensures SumOver(Incremented(m, k), ns) == SumOver(m, ns) + if k.namespace == ns then 1 else 0
  {
    var inc := Incremented(m, k);
    SumOverPick(inc, ns, k);
    if k in m {
      SumOverPick(m, ns, k);
      assert inc - {k} == m - {k};
    } else {
      assert inc - {k} == m;
    }
  }

  ghost function InNamespace(us: seq<ProxyUpdate>, ns: string, c: Class): (n: nat)
  {
    if us == [] then 0
    else
      var u := us[|us| - 1];
      InNamespace(us[..|us| - 1], ns, c) + if u.fullname.namespace == ns && ClassOf(u) == c then 1 else 0
  }

  /** A counter summed over a namespace counts the updates of its class there. */
  lemma {:induction false} SumCounts(us: seq<ProxyUpdate>, ns: string, c: Class)
    ensures SumOver(Tally(KeysOf(us, c)), ns) == InNamespace(us, ns, c)
  {
    if us == [] {
      assert Tally([]) == map[];
    } else {
      var front, u := us[..|us| - 1], us[|us| - 1];
      SumCounts(front, ns, c);
      assert us == front + [u];
      TalliedNext(front, u);
      var key := Meta(u.vhost, u.fullname.namespace);
      SumOverIncremented(Tally(KeysOf(front, c)), ns, if c == IsOrphaned then key.(vhost := "") else key);
    }
  }

  lemma {:induction false} TotalCounts(us: seq<ProxyUpdate>, ns: string)
    ensures SumOver(Tally(TotalKeys(us)), ns) ==
            InNamespace(us, ns, IsValid) + InNamespace(us, ns, IsInvalid) + InNamespace(us, ns, IsOrphaned)
            + InNamespace(us, ns, IsUnknown)
  {
    if us == [] {
      assert Tally([]) == map[];
    } else {
      var front, u := us[..|us| - 1], us[|us| - 1];
      TotalCounts(front, ns);
      assert us == front + [u];
      TalliedNext(front, u);
      SumOverIncremented(Tally(TotalKeys(front)), ns, Meta("", u.fullname.namespace));
    }
  }

  /** In every namespace the total is what is valid, invalid and orphaned, plus the objects
      whose Valid condition has another status. */
  lemma CountsAreConserved(us: seq<ProxyUpdate>, ns: string)
    ensures var m := TallyOf(us);
            SumOver(m.total, ns) ==
            SumOver(m.valid, ns) + SumOver(m.invalid, ns) + SumOver(m.orphaned, ns) + InNamespace(us, ns, IsUnknown)
  {
    TotalCounts(us, ns);
    SumCounts(us, ns, IsValid);
    SumCounts(us, ns, IsInvalid);
    SumCounts(us, ns, IsOrphaned);
  }

  lemma {:induction false} NoneUnknown(us: seq<ProxyUpdate>, ns: string)
    requires forall i :: 0 <= i < |us| ==> UpdateOk(us[i])
    ensures InNamespace(us, ns, IsUnknown) == 0
  {
    if us != [] {
      NoneUnknown(us[..|us| - 1], ns);
      var u := us[|us| - 1];
      assert UpdateOk(u) && StatusExact(ConditionIn(u, VALID));
    }
  }

  /** These are updates that are committed in the status cache. */
  ghost predicate AreCommitted(us: seq<ProxyUpdate>, st: CacheState)
  {
    forall i :: 0 <= i < |us| ==>
      exists n :: n in st.committed && st.committed[n] < |st.updates| && us[i] == st.updates[st.committed[n]]
  }

  /** No build makes an object of another status: over every run of the status cache, the
      total of each namespace is what is valid, invalid and orphaned there. */
  lemma BuildCountsAreConserved(steps: seq<Step>, us: seq<ProxyUpdate>, ns: string)
    requires Run(EMPTY, steps).Some? && AreCommitted(us, Run(EMPTY, steps).value)
    ensures var m := TallyOf(us);
            SumOver(m.total, ns) == SumOver(m.valid, ns) + SumOver(m.invalid, ns) + SumOver(m.orphaned, ns)
  {
    RunOk(EMPTY, steps);
    NoneUnknown(us, ns);
    CountsAreConserved(us, ns);
  }

  // ----- gauges ---------------------------------------------------------------------------

  /** A key of `keys` has the label. */
  ghost predicate Labels<L>(keys: set<Meta>, labelOf: Meta -> L, l: L)
  {
    exists k :: k in keys && labelOf(k) == l
  }

  /** One gauge of SetHTTPProxyMetric: set what is new, then drop the labels of what is
      left in the cache. Both loops range over maps. */
  method SetGauge<L(==, !new)>(gauge: map<L, nat>, newest: map<Meta, nat>, cached: map<Meta, nat>, labelOf: Meta -> L)
    returns (out: map<L, nat>)
    ensures GaugeSet(gauge, out, newest, cached, labelOf)
  {
    out := gauge;
    var left := cached;
    var todo := newest.Keys;
    while todo != {}
      invariant todo <= newest.Keys
      invariant left.Keys == cached.Keys - (newest.Keys - todo)
      invariant forall l :: l in out <==> l in gauge || Labels(newest.Keys - todo, labelOf, l)
      invariant forall l :: l in out && Labels(newest.Keys - todo, labelOf, l) ==>
                  exists k :: k in newest && labelOf(k) == l && out[l] == newest[k]
      invariant forall l :: l in out && !Labels(newest.Keys - todo, labelOf, l) ==> l in gauge && out[l] == gauge[l]
      decreases todo
    {
      var meta :| meta in todo;
      MoreLabels(newest.Keys, todo, meta, labelOf);
      out := out[labelOf(meta) := newest[meta]];
      left := left - {meta};
      todo := todo - {meta};
    }
    assert newest.Keys - {} == newest.Keys;
    ghost var set_ := out;
    var stale := left.Keys;
    while stale != {}
      invariant stale <= left.Keys
      invariant forall l :: l in out <==> l in set_ && !Labels(left.Keys - stale, labelOf, l)
      invariant forall l :: l in out ==> out[l] == set_[l]
      decreases stale
    {
      var meta :| meta in stale;
      MoreLabels(left.Keys, stale, meta, labelOf);
      out := out - {labelOf(meta)};
      stale := stale - {meta};
    }
    assert left.Keys - {} == left.Keys;
  }

  lemma MoreLabels<L(!new)>(all: set<Meta>, todo: set<Meta>, k: Meta, labelOf: Meta -> L)
    requires todo <= all && k in todo
    ensures forall l :: Labels(all - (todo - {k}), labelOf, l) <==> Labels(all - todo, labelOf, l) || labelOf(k) == l
  {
    forall l
      ensures Labels(all - (todo - {k}), labelOf, l) <==> Labels(all - todo, labelOf, l) || labelOf(k) == l
    {
      if Labels(all - todo, labelOf, l) {
        var j :| j in all - todo && labelOf(j) == l;
        assert j in all - (todo - {k});
      }
      if labelOf(k) == l {
        assert k in all - (todo - {k});
      }
    }
  }

  /** The labels: total, orphaned and root go by namespace alone. */
  function NamespaceOf(k: Meta): (ns: string)
  {
    k.namespace
  }

  function Itself(k: Meta): (l: Meta)
  {
    k
  }

  /** Counters that a namespace gauge can show: one key for each namespace. */
  predicate ByNamespace(m: map<Meta, nat>)
  {
    forall k :: k in m ==> k.vhost == ""
  }

  /** A gauge shows exactly a map that has one key for each namespace. */
  ghost predicate ShowsNamespaces(gauge: map<string, nat>, m: map<Meta, nat>)
  {
    && (forall ns :: ns in gauge <==> Meta("", ns) in m)
    && (forall ns :: ns in gauge ==> gauge[ns] == m[Meta("", ns)])
  }

  class Gauges {
    var total: map<string, nat>
    var valid: map<Meta, nat>
    var invalid: map<Meta, nat>
    var orphaned: map<string, nat>
    var root: map<string, nat>
    var cached: RouteMetric

    /** What a registry scrape finds agrees with the last metric that was set. */
    ghost predicate Agrees()
      reads this
    {
      && ByNamespace(cached.total) && ShowsNamespaces(total, cached.total)
      && ByNamespace(cached.orphaned) && ShowsNamespaces(orphaned, cached.orphaned)
      && valid == cached.valid
      && invalid == cached.invalid
      && (forall ns :: ns in root ==> Labels(cached.root.Keys, NamespaceOf, ns))
    }

    constructor ()
      ensures Agrees() && cached == NO_METRIC
    {
      total, valid, invalid, orphaned, root := map[], map[], map[], map[], map[];
      cached := NO_METRIC;
    }

    /** After any update with maps as calculateRouteMetric makes them, every gauge but the
        one for roots shows the new map and nothing else. The root gauge has a label for a
        namespace exactly when the new map has a root there and no root of the old map
        that was there is missing from the new one. */
    method SetHTTPProxyMetric(metrics: RouteMetric)
      requires Agrees() && ByNamespace(metrics.total) && ByNamespace(metrics.orphaned)
      modifies this
      ensures Agrees() && cached == metrics
      ensures RootLabels(root, metrics.root, old(cached.root)) && RootValues(root, metrics.root)
    {
      total := SetNamespaceGauge(total, metrics.total, cached.total);
      invalid := SetKeyGauge(invalid, metrics.invalid, cached.invalid);
      orphaned := SetNamespaceGauge(orphaned, metrics.orphaned, cached.orphaned);
      valid := SetKeyGauge(valid, metrics.valid, cached.valid);
      root := SetRootGauge(root, metrics.root, cached.root);
      cached := metrics;
    }
  }

  method SetNamespaceGauge(gauge: map<string, nat>, newest: map<Meta, nat>, cached: map<Meta, nat>)
    returns (out: map<string, nat>)
    requires ByNamespace(newest) && ByNamespace(cached) && ShowsNamespaces(gauge, cached)
    ensures ShowsNamespaces(out, newest)
  {
    out := SetGauge(gauge, newest, cached, NamespaceOf);
    NamespaceGaugeAgrees(gauge, out, newest, cached);
  }

  method SetKeyGauge(gauge: map<Meta, nat>, newest: map<Meta, nat>, cached: map<Meta, nat>)
    returns (out: map<Meta, nat>)
    requires gauge == cached
    ensures out == newest
  {
    out := SetGauge(gauge, newest, cached, Itself);
    KeyGaugeAgrees(gauge, out, newest, cached);
  }

  method SetRootGauge(gauge: map<string, nat>, newest: map<Meta, nat>, cached: map<Meta, nat>)
    returns (out: map<string, nat>)
    requires forall ns :: ns in gauge ==> Labels(cached.Keys, NamespaceOf, ns)
    ensures RootLabels(out, newest, cached) && RootValues(out, newest)
  {
    out := SetGauge(gauge, newest, cached, NamespaceOf);
    RootGaugeLabels(gauge, out, newest, cached);
  }

  /** A label shows the number of roots of one host there. */
  ghost predicate RootValues(out: map<string, nat>, newest: map<Meta, nat>)
  {
    forall ns :: ns in out ==> exists k :: k in newest && NamespaceOf(k) == ns && out[ns] == newest[k]
  }

  /** A namespace has a label when the new map has a root there and no root of the cached
      map that was there is missing from the new one. */
  ghost predicate RootLabels(out: map<string, nat>, newest: map<Meta, nat>, cached: map<Meta, nat>)
  {
    forall ns :: ns in out <==>
      Labels(newest.Keys, NamespaceOf, ns) && !Labels(cached.Keys - newest.Keys, NamespaceOf, ns)
  }

  /** What SetGauge promises. */
  ghost predicate GaugeSet<L(!new)>(gauge: map<L, nat>, out: map<L, nat>, newest: map<Meta, nat>,
                                    cached: map<Meta, nat>, labelOf: Meta -> L)
  {
    && (forall l :: l in out <==>
          (l in gauge || Labels(newest.Keys, labelOf, l)) && !Labels(cached.Keys - newest.Keys, labelOf, l))
    && (forall l :: l in out && Labels(newest.Keys, labelOf, l) ==>
          exists k :: k in newest && labelOf(k) == l && out[l] == newest[k])
    && (forall l :: l in out && !Labels(newest.Keys, labelOf, l) ==> l in gauge && out[l] == gauge[l])
  }

  lemma NamespaceGaugeAgrees(gauge: map<string, nat>, out: map<string, nat>, newest: map<Meta, nat>,
                             cached: map<Meta, nat>)
    requires ByNamespace(newest) && ByNamespace(cached) && ShowsNamespaces(gauge, cached)
    requires GaugeSet(gauge, out, newest, cached, NamespaceOf)
    ensures ShowsNamespaces(out, newest)
  {
    forall ns
      ensures ns in out <==> Meta("", ns) in newest
      ensures ns in out ==> out[ns] == newest[Meta("", ns)]
    {
      assert forall m: map<Meta, nat> :: ByNamespace(m) ==> forall k :: k in m && NamespaceOf(k) == ns ==>
               k == Meta("", ns);
      if Meta("", ns) in newest {
        assert Labels(newest.Keys, NamespaceOf, ns);
        assert !Labels(cached.Keys - newest.Keys, NamespaceOf, ns);
      } else if ns in gauge {
        assert Meta("", ns) in cached.Keys - newest.Keys && NamespaceOf(Meta("", ns)) == ns;
        assert Labels(cached.Keys - newest.Keys, NamespaceOf, ns);
      }
    }
  }

  lemma KeyGaugeAgrees(gauge: map<Meta, nat>, out: map<Meta, nat>, newest: map<Meta, nat>, cached: map<Meta, nat>)
    requires gauge == cached && GaugeSet(gauge, out, newest, cached, Itself)
    ensures out == newest
  {
    forall k
      ensures k in out <==> k in newest
      ensures k in out ==> out[k] == newest[k]
    {
      if k in newest {
        assert Itself(k) == k && Labels(newest.Keys, Itself, k);
      } else if k in cached {
        assert Itself(k) == k && k in cached.Keys - newest.Keys;
        assert Labels(cached.Keys - newest.Keys, Itself, k);
      }
    }
  }

  lemma RootGaugeLabels(gauge: map<string, nat>, out: map<string, nat>, newest: map<Meta, nat>, cached: map<Meta, nat>)
    requires forall ns :: ns in gauge ==> Labels(cached.Keys, NamespaceOf, ns)
    requires GaugeSet(gauge, out, newest, cached, NamespaceOf)
    ensures RootLabels(out, newest, cached)
  {
    forall ns | ns in out
      ensures Labels(newest.Keys, NamespaceOf, ns)
    {
      if ns in gauge {
        var k :| k in cached.Keys && NamespaceOf(k) == ns;
        assert k in newest.Keys;
      }
    }
  }

  predicate Positive(m: map<Meta, nat>)
  {
    forall k :: k in m ==> m[k] > 0
  }

  /** A sum is 0 exactly if no key counts. */
  lemma {:induction false} SumIsZeroWhen(m: map<Meta, nat>, ns: string)
    requires Positive(m)
    ensures SumOver(m, ns) == 0 <==> forall k :: k in m ==> k.namespace != ns
    decreases |m.Keys|
  {
    if m != map[] {
      var k :| k in m;
      SumOverPick(m, ns, k);
      SumIsZeroWhen(m - {k}, ns);
      assert forall j :: j in m <==> j == k || j in m - {k};
    }
  }

  /** The number of one host is the sum of the namespace exactly if there is no other host. */
  lemma OneIsSumWhen(m: map<Meta, nat>, k: Meta)
    requires Positive(m) && k in m
    ensures m[k] == SumOver(m, k.namespace) <==> forall j :: j in m && j.namespace == k.namespace ==> j == k
  {
    SumOverPick(m, k.namespace, k);
    SumIsZeroWhen(m - {k}, k.namespace);
    assert forall j :: j in m <==> j == k || j in m - {k};
  }

  /** No host that is gone shares a namespace with one that is there. */
  ghost predicate NoneGone(newest: map<Meta, nat>, cached: map<Meta, nat>)
  {
    forall k, j :: k in cached.Keys - newest.Keys && j in newest ==> k.namespace != j.namespace
  }

  /** The roots of a namespace are all of one host. */
  ghost predicate OneHostIn(newest: map<Meta, nat>, ns: string)
  {
    forall k, j :: k in newest && j in newest && k.namespace == ns == j.namespace ==> k == j
  }

  ghost predicate OneHostEach(newest: map<Meta, nat>)
  {
    forall k :: k in newest ==> OneHostIn(newest, k.namespace)
  }

  /** The root gauge shows all the namespaces that have roots. */
  ghost predicate ShowsAll(out: map<string, nat>, newest: map<Meta, nat>)
  {
    forall ns :: ns in out <==> Labels(newest.Keys, NamespaceOf, ns)
  }

  /** It shows for each namespace the number of its roots. */
  ghost predicate ShowsSums(out: map<string, nat>, newest: map<Meta, nat>)
  {
    forall ns :: ns in out ==> out[ns] == SumOver(newest, ns)
  }

  /** The root gauge shows all the namespaces that have roots exactly when none of them lost
      a host since the update before. */
  lemma RootGaugeIsCompleteWhen(newest: map<Meta, nat>, cached: map<Meta, nat>, out: map<string, nat>)
    requires RootLabels(out, newest, cached)
    ensures ShowsAll(out, newest) <==> NoneGone(newest, cached)
  {
    if NoneGone(newest, cached) {
      forall ns | Labels(newest.Keys, NamespaceOf, ns)
        ensures ns in out
      {
        var j :| j in newest.Keys && NamespaceOf(j) == ns;
      }
    }
    if k, j :| k in cached.Keys - newest.Keys && j in newest && k.namespace == j.namespace {
      assert NamespaceOf(k) == NamespaceOf(j) == j.namespace;
      assert Labels(cached.Keys - newest.Keys, NamespaceOf, j.namespace);
      assert Labels(newest.Keys, NamespaceOf, j.namespace);
    }
  }

  /** The value that is shown for a namespace is that of one host, so it is the number of
      roots there exactly when they are all of one host. */
  lemma RootGaugeIsSumWhen(newest: map<Meta, nat>, out: map<string, nat>, ns: string)
    requires RootValues(out, newest) && Positive(newest) && ns in out
    ensures out[ns] == SumOver(newest, ns) <==> OneHostIn(newest, ns)
  {
    var k :| k in newest && NamespaceOf(k) == ns && out[ns] == newest[k];
    OneIsSumWhen(newest, k);
  }

  lemma SumsAreShownWhen(newest: map<Meta, nat>, out: map<string, nat>)
    requires RootValues(out, newest) && Positive(newest) && ShowsAll(out, newest)
    ensures ShowsSums(out, newest) <==> OneHostEach(newest)
  {
    if ShowsSums(out, newest) {
      forall k | k in newest
        ensures OneHostIn(newest, k.namespace)
      {
        assert NamespaceOf(k) == k.namespace && Labels(newest.Keys, NamespaceOf, k.namespace);
        RootGaugeIsSumWhen(newest, out, k.namespace);
      }
    }
    if OneHostEach(newest) {
      forall ns | ns in out
        ensures out[ns] == SumOver(newest, ns)
      {
        RootGaugeIsSumWhen(newest, out, ns);
        var k :| k in newest && NamespaceOf(k) == ns;
      }
    }
  }

  /** So the root gauge is right, in its labels and in its values, if and only if no host that
      is gone shares a namespace with one that is there, and no two hosts that are there do. */
  lemma RootGaugeIsRightWhen(newest: map<Meta, nat>, cached: map<Meta, nat>, out: map<string, nat>)
    requires RootLabels(out, newest, cached) && RootValues(out, newest) && Positive(newest)
    ensures ShowsAll(out, newest) && ShowsSums(out, newest) <==> NoneGone(newest, cached) && OneHostEach(newest)
  {
    RootGaugeIsCompleteWhen(newest, cached, out);
    if ShowsAll(out, newest) {
      SumsAreShownWhen(newest, out);
    }
  }

  /** It can lose a namespace: the root there gets a new vhost, and the clean-up of the old
      key removes the label that was just set. */
  lemma RootGaugeLosesNamespace(ns: string, out: map<string, nat>)
    requires var cached, newest := map[Meta("old.example.com", ns) := 1], map[Meta("new.example.com", ns) := 1];
             GaugeSet(map[ns := 1], out, newest, cached, NamespaceOf)
    ensures ns !in out
  {
    var cached, newest := map[Meta("old.example.com", ns) := 1], map[Meta("new.example.com", ns) := 1];
    assert NamespaceOf(Meta("old.example.com", ns)) == ns;
    assert "old.example.com"[0] != "new.example.com"[0];
    assert Meta("old.example.com", ns) in cached.Keys - newest.Keys;
    assert Labels(cached.Keys - newest.Keys, NamespaceOf, ns);
  }

  // ----- what calculateRouteMetric makes has the right keys --------------------------------------

  lemma {:induction false} TotalsAreByNamespace(us: seq<ProxyUpdate>)
    ensures forall k :: k in TotalKeys(us) ==> k.vhost == ""
    ensures forall k :: k in KeysOf(us, IsOrphaned) ==> k.vhost == ""
  {
    if us != [] {
      TotalsAreByNamespace(us[..|us| - 1]);
    }
  }

  lemma TallyIsByNamespace(us: seq<ProxyUpdate>)
    ensures ByNamespace(TallyOf(us).total) && ByNamespace(TallyOf(us).orphaned) && Positive(TallyOf(us).root)
  {
    TotalsAreByNamespace(us);
  }

  /** The part of OnChange that a leader does: the updates of a build are counted, and the
      counts are published. */
  method OnChange(gauges: Gauges, updates: seq<ProxyUpdate>)
    requires gauges.Agrees()
    modifies gauges
    ensures gauges.Agrees() && gauges.cached == TallyOf(updates) && Positive(gauges.cached.root)
    ensures RootLabels(gauges.root, gauges.cached.root, old(gauges.cached.root))
    ensures RootValues(gauges.root, gauges.cached.root)
  {
    TallyIsByNamespace(updates);
    var metrics := CalculateRouteMetric(updates);
    gauges.SetHTTPProxyMetric(metrics);
  }
}
