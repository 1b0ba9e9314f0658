/** Status of HTTPProxies: conditions that are filled while the table is built
    (apis/projectsesame/v1/helpers.go), the cache they are committed to
    (internal/status/cache.go) and their merge into the stored object
    (internal/status/proxystatus.go). */
module Status {
  import opened Text
  import opened Kube
  import opened Issues

  const VALID := "Valid"

  datatype ConditionStatus = ConditionTrue | ConditionFalse | ConditionUnknown

  datatype SubCondition = SubCondition(kind: ErrorKind, reason: Reason, message: string)

  datatype DetailedCondition = DetailedCondition(
    kind: string,
    status: ConditionStatus,
    reason: string,
    message: string,
    observedGeneration: int,
    lastTransitionTime: int,
    errors: seq<SubCondition>,
    warnings: seq<SubCondition>)
  {
    predicate IsPositivePolarity()
    {
      kind == VALID
    }
  }

  datatype ProxyUpdate = ProxyUpdate(
    fullname: Name,
    generation: int,
    transitionTime: int,
    vhost: string,
    conditions: map<string, DetailedCondition>)

  const LONG_MESSAGE_LENGTH := 32760

  const ERROR_PRESENT := "ErrorPresent"
  const SEE_ERRORS := "At least one error present, see Errors for details"

  function Truncated(message: string): (m: string)
    ensures m <= message && |m| == if |message| < LONG_MESSAGE_LENGTH then |message| else LONG_MESSAGE_LENGTH
  {
    if |message| > LONG_MESSAGE_LENGTH then message[..LONG_MESSAGE_LENGTH] else message
  }

  function WithError(dc: DetailedCondition, kind: ErrorKind, reason: Reason, message: string): (dc': DetailedCondition)
  {
    dc.(status := if dc.IsPositivePolarity() then ConditionFalse else ConditionTrue,
        reason := ERROR_PRESENT,
        message := SEE_ERRORS,
        errors := dc.errors + [SubCondition(kind, reason, Truncated(message))])
  }

  function WithWarning(dc: DetailedCondition, kind: ErrorKind, reason: Reason,
                       message: string): (dc': DetailedCondition)
  {
    dc.(warnings := dc.warnings + [SubCondition(kind, reason, Truncated(message))])
  }

  /** A new condition: no errors yet. */
  function NewCondition(kind: string, generation: int): (dc: DetailedCondition)
  {
    if kind == VALID
    then DetailedCondition(kind, ConditionTrue, "Valid", "Valid HTTPProxy", generation, 0, [], [])
    else DetailedCondition(kind, ConditionFalse, "", "", generation, 0, [], [])
  }

  /** Status says whether there are errors, in the sense of the condition's polarity. */
  predicate StatusExact(dc: DetailedCondition)
  {
    dc.status == if dc.IsPositivePolarity() == (dc.errors == []) then ConditionTrue else ConditionFalse
  }

  method GetIndex(kind: ErrorKind, subconds: seq<SubCondition>) returns (i: int)
    ensures -1 <= i < |subconds|
    ensures i >= 0 ==> subconds[i].kind == kind && forall k :: 0 <= k < i ==> subconds[k].kind != kind
    ensures i == -1 ==> forall k :: 0 <= k < |subconds| ==> subconds[k].kind != kind
  {
    for k := 0 to |subconds|
      invariant forall l :: 0 <= l < k ==> subconds[l].kind != kind
    {
      if subconds[k].kind == kind {
        return k;
      }
    }
    return -1;
  }

  ghost predicate HasError(dc: DetailedCondition, kind: ErrorKind)
  {
    exists i :: 0 <= i < |dc.errors| && dc.errors[i].kind == kind
  }

  method GetError(dc: DetailedCondition, kind: ErrorKind) returns (found: Option<SubCondition>)
    ensures found.Some? <==> HasError(dc, kind)
    ensures found.Some? ==> found.value in dc.errors && found.value.kind == kind
  {
    var i := GetIndex(kind, dc.errors);
    if i == -1 {
      return None;
    }
    return Some(dc.errors[i]);
  }

  // ----- the cache -----------------------------------------------------------------------

  /** Pointers to updates are positions in `updates`; an update can be changed after it
      was committed, and the cache then sees the change. */
  datatype CacheState = CacheState(updates: seq<ProxyUpdate>, committed: map<Name, nat>)

  function Opened(st: CacheState, name: Name, generation: int, time: int): (st': CacheState)
  {
    st.(updates := st.updates + [ProxyUpdate(name, generation, time, "", map[])])
  }

  /** ConditionFor: the condition of that kind, made if there is none. */
  function ConditionIn(pu: ProxyUpdate, kind: string): (dc: DetailedCondition)
  {
    if kind in pu.conditions then pu.conditions[kind] else NewCondition(kind, pu.generation)
  }

  function WithCondition(st: CacheState, i: nat, dc: DetailedCondition): (st': CacheState)
    requires i < |st.updates|
  {
    var pu := st.updates[i];
    st.(updates := st.updates[i := pu.(conditions := pu.conditions[dc.kind := dc])])
  }

  /** Commit does not dereference a missing Valid condition. */
  predicate CommitDefined(st: CacheState, i: nat)
    requires i < |st.updates|
  {
    var pu := st.updates[i];
    pu.conditions != map[] && pu.fullname in st.committed ==>
      && st.committed[pu.fullname] < |st.updates|
      && VALID in st.updates[st.committed[pu.fullname]].conditions
      && (st.updates[st.committed[pu.fullname]].conditions[VALID].status == ConditionFalse ==> VALID in pu.conditions)
  }

  /** An update that would set an invalid object back to valid is dropped. */
  predicate Dropped(st: CacheState, i: nat)
    requires i < |st.updates| && CommitDefined(st, i)
  {
    var pu := st.updates[i];
    || pu.conditions == map[]
    || (&& pu.fullname in st.committed
        && st.updates[st.committed[pu.fullname]].conditions[VALID].status == ConditionFalse
        && pu.conditions[VALID].status == ConditionTrue)
  }

  function Committed(st: CacheState, i: nat): (st': CacheState)
    requires i < |st.updates| && CommitDefined(st, i)
  {
    if Dropped(st, i) then st else st.(committed := st.committed[st.updates[i].fullname := i])
  }

  class StatusCache {
    var updates: seq<ProxyUpdate>
    var committed: map<Name, nat>

    ghost function Now(): (st: CacheState)
      reads this
    {
      CacheState(updates, committed)
    }

    constructor ()
      ensures Now() == CacheState([], map[])
    {
      updates, committed := [], map[];
    }

    method ProxyAccessor(name: Name, generation: int, time: int) returns (pu: nat)
      modifies this
      ensures pu == |old(updates)|
      ensures Now() == Opened(old(Now()), name, generation, time)
    {
      pu := |updates|;
      updates := updates + [ProxyUpdate(name, generation, time, "", map[])];
    }

    method ConditionFor(pu: nat, kind: string) returns (dc: DetailedCondition)
      requires pu < |updates|
      modifies this`updates
      ensures dc == ConditionIn(old(updates[pu]), kind)
      ensures dc.kind == kind ==> Now() == WithCondition(old(Now()), pu, dc)
      ensures |updates| == |old(updates)|
      ensures forall k :: 0 <= k < |updates| && k != pu ==> updates[k] == old(updates[k])
      ensures updates[pu] == old(updates[pu]).(conditions := old(updates[pu]).conditions[kind := dc])
    {
      var u := updates[pu];
      if kind !in u.conditions {
        dc := NewCondition(kind, u.generation);
        updates := updates[pu := u.(conditions := u.conditions[kind := dc])];
        return;
      }
      dc := u.conditions[kind];
      assert u.conditions[kind := dc] == u.conditions;
      assert updates[pu := u] == updates;
    }

    /** AddError on the condition of a kind. */
    method AddError(pu: nat, cond: string, kind: ErrorKind, reason: Reason, message: string)
      requires pu < |updates|
      requires cond in updates[pu].conditions && updates[pu].conditions[cond].kind == cond
      modifies this`updates
      ensures Now() == WithCondition(old(Now()), pu,
                                     WithError(old(updates[pu]).conditions[cond], kind, reason, message))
    {
      var u := updates[pu];
      var dc := u.conditions[cond];
      if dc.IsPositivePolarity() {
        dc := dc.(status := ConditionFalse);
      } else {
        dc := dc.(status := ConditionTrue);
      }
      dc := dc.(reason := ERROR_PRESENT, message := SEE_ERRORS);
      dc := dc.(errors := dc.errors + [SubCondition(kind, reason, Truncated(message))]);
      updates := updates[pu := u.(conditions := u.conditions[cond := dc])];
    }

    method AddWarning(pu: nat, cond: string, kind: ErrorKind, reason: Reason, message: string)
      requires pu < |updates|
      requires cond in updates[pu].conditions && updates[pu].conditions[cond].kind == cond
      modifies this`updates
      ensures Now() == WithCondition(old(Now()), pu,
                                     WithWarning(old(updates[pu]).conditions[cond], kind, reason, message))
    {
      var u := updates[pu];
      var dc := u.conditions[cond];
      dc := dc.(warnings := dc.warnings + [SubCondition(kind, reason, Truncated(message))]);
      updates := updates[pu := u.(conditions := u.conditions[cond := dc])];
    }

    /** The closure that ProxyAccessor returns. */
    method Commit(pu: nat)
      requires pu < |updates| && CommitDefined(Now(), pu)
      modifies this`committed
      ensures Now() == Committed(old(Now()), pu)
    {
      var u := updates[pu];
      if u.conditions == map[] {
        return;
      }
      if u.fullname in committed {
        if updates[committed[u.fullname]].conditions[VALID].status == ConditionFalse {
          if u.conditions[VALID].status == ConditionTrue {
            return;
          }
        }
      }
      committed := committed[u.fullname := pu];
    }
  }

  // ----- runs --------------------------------------------------------------------------------

  datatype Step =
    | Open(name: Name, generation: int, time: int)
    | Touch(pu: nat, cond: string)
    | Error(pu: nat, cond: string, kind: ErrorKind, reason: Reason, message: string)
    | Warning(pu: nat, cond: string, kind: ErrorKind, reason: Reason, message: string)
    | CommitUpdate(pu: nat)

  predicate Enabled(st: CacheState, step: Step)
  {
    match step
    case Open(_, _, _) => true
    case Touch(pu, _) => pu < |st.updates|
    case Error(pu, _, _, _, _) => pu < |st.updates|
    case Warning(pu, _, _, _, _) => pu < |st.updates|
    case CommitUpdate(pu) => pu < |st.updates| && CommitDefined(st, pu)
  }

  function Next(st: CacheState, step: Step): (st': CacheState)
    requires Enabled(st, step)
  {
    match step
    case Open(name, generation, time) => Opened(st, name, generation, time)
    case Touch(pu, cond) => WithCondition(st, pu, ConditionIn(st.updates[pu], cond))
    case Error(pu, cond, kind, reason, message) =>
      WithCondition(st, pu, WithError(ConditionIn(st.updates[pu], cond), kind, reason, message))
    case Warning(pu, cond, kind, reason, message) =>
      WithCondition(st, pu, WithWarning(ConditionIn(st.updates[pu], cond), kind, reason, message))
    case CommitUpdate(pu) => Committed(st, pu)
  }

  function Run(st: CacheState, steps: seq<Step>): (out: Option<CacheState>)
    decreases |steps|
  {
    if steps == [] then Some(st)
    else if Enabled(st, steps[0]) then Run(Next(st, steps[0]), steps[1..])
    else None
  }

  const EMPTY := CacheState([], map[])

  ghost predicate UpdateOk(pu: ProxyUpdate)
  {
    forall k :: k in pu.conditions ==> pu.conditions[k].kind == k && StatusExact(pu.conditions[k])
  }

  ghost predicate CacheOk(st: CacheState)
  {
    && (forall i :: 0 <= i < |st.updates| ==> UpdateOk(st.updates[i]))
    && (forall n :: n in st.committed ==> st.committed[n] < |st.updates| && st.updates[st.committed[n]].fullname == n)
  }

  lemma NextOk(st: CacheState, step: Step)
    requires CacheOk(st) && Enabled(st, step)
    ensures CacheOk(Next(st, step))
  {
  }

  lemma {:induction false} RunOk(st: CacheState, steps: seq<Step>)
    requires CacheOk(st) && Run(st, steps).Some?
    ensures CacheOk(Run(st, steps).value)
    decreases |steps|
  {
    if steps != [] {
      NextOk(st, steps[0]);
      RunOk(Next(st, steps[0]), steps[1..]);
    }
  }

  /** The committed object has a Valid condition with status False. */
  predicate Invalid(st: CacheState, n: Name)
  {
    && n in st.committed && st.committed[n] < |st.updates|
    && VALID in st.updates[st.committed[n]].conditions
    && st.updates[st.committed[n]].conditions[VALID].status == ConditionFalse
  }

  lemma InvalidSticksOneStep(st: CacheState, step: Step, n: Name)
    requires CacheOk(st) && Enabled(st, step) && Invalid(st, n)
    ensures Invalid(Next(st, step), n)
  {
    if step.CommitUpdate? {
      var pu := st.updates[step.pu];
      assert UpdateOk(pu);
    } else if !step.Open? {
      assert UpdateOk(st.updates[step.pu]);
    }
  }

  /** Once invalid, invalid for the rest of the build, whatever is done to any update and
      whatever is committed after it. */
  lemma {:induction false} InvalidSticks(st: CacheState, steps: seq<Step>, n: Name)
    requires CacheOk(st) && Invalid(st, n) && Run(st, steps).Some?
    ensures Invalid(Run(st, steps).value, n)
    decreases |steps|
  {
    if steps != [] {
      NextOk(st, steps[0]);
      InvalidSticksOneStep(st, steps[0], n);
      InvalidSticks(Next(st, steps[0]), steps[1..], n);
    }
  }

  lemma {:induction false} RunConcat(st: CacheState, a: seq<Step>, b: seq<Step>)
    ensures Run(st, a + b) == (var mid := Run(st, a); if mid.None? then None else Run(mid.value, b))
    decreases |a|
  {
    if a == [] {
      assert a + b == b;
    } else {
      assert (a + b)[1..] == a[1..] + b && (a + b)[0] == a[0];
      if Enabled(st, a[0]) {
        RunConcat(Next(st, a[0]), a[1..], b);
      }
    }
  }

  /** Over every run: a committed Valid condition is False exactly when it has errors, and
      True otherwise; and an object that is invalid after some steps is invalid after any
      more. */
  lemma StatusOverRuns(before: seq<Step>, more: seq<Step>, n: Name)
    requires Run(EMPTY, before + more).Some?
    ensures Run(EMPTY, before).Some?
    ensures var st := Run(EMPTY, before + more).value;
            n in st.committed ==>
              && st.committed[n] < |st.updates|
              && (VALID in st.updates[st.committed[n]].conditions ==>
                    st.updates[st.committed[n]].conditions[VALID].status ==
                    if st.updates[st.committed[n]].conditions[VALID].errors != [] then ConditionFalse
                      else ConditionTrue)
    ensures Invalid(Run(EMPTY, before).value, n) ==> Invalid(Run(EMPTY, before + more).value, n)
  {
    RunConcat(EMPTY, before, more);
    RunOk(EMPTY, before);
    var mid, st := Run(EMPTY, before).value, Run(EMPTY, before + more).value;
    RunOk(mid, more);
    if Invalid(mid, n) {
      InvalidSticks(mid, more, n);
    }
    if n in st.committed {
      assert UpdateOk(st.updates[st.committed[n]]);
    }
  }
}
