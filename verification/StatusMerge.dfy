/** ProxyUpdate.Mutate (internal/status/proxystatus.go): the conditions of an update are
    merged into the status of the stored object, unless the stored ones are newer. */
module StatusMerge {
  import opened Text
  import opened Issues
  import opened Status

  datatype ProxyStatus = ProxyStatus(currentStatus: string, description: string, conditions: seq<DetailedCondition>)

  /** GetConditionFor: the position of the first condition of a kind. */
  method GetConditionFor(conds: seq<DetailedCondition>, kind: string) returns (i: Option<nat>)
    ensures i.None? ==> forall k :: 0 <= k < |conds| ==> conds[k].kind != kind
    ensures i.Some? ==> i.value < |conds| && conds[i.value].kind == kind
                        && forall k :: 0 <= k < i.value ==> conds[k].kind != kind
    ensures Find(conds, kind) == if i.None? then None else Some(conds[i.value])
  {
    for k := 0 to |conds|
      invariant forall l :: 0 <= l < k ==> conds[l].kind != kind
      invariant Find(conds, kind) == Find(conds[k..], kind)
    {
      if conds[k].kind == kind {
        return Some(k);
      }
      assert conds[k..][1..] == conds[k + 1..];
    }
    assert conds[|conds|..] == [];
    return None;
  }

  function Find(conds: seq<DetailedCondition>, kind: string): (dc: Option<DetailedCondition>)
    ensures dc.Some? ==> dc.value.kind == kind && dc.value in conds
    ensures dc.None? ==> forall k :: 0 <= k < |conds| ==> conds[k].kind != kind
  {
    if conds == [] then None
    else if conds[0].kind == kind then Some(conds[0])
    else Find(conds[1..], kind)
  }

  lemma {:induction false} FindAfterUpdate(conds: seq<DetailedCondition>, i: nat, dc: DetailedCondition, kind: string)
    requires i < |conds| && conds[i].kind == dc.kind
    requires forall k :: 0 <= k < i ==> conds[k].kind != dc.kind
    ensures Find(conds[i := dc], kind) == if kind == dc.kind then Some(dc) else Find(conds, kind)
  {
    if i > 0 {
      assert conds[i := dc][1..] == conds[1..][i - 1 := dc];
      FindAfterUpdate(conds[1..], i - 1, dc, kind);
    } else {
      assert conds[0 := dc][1..] == conds[1..];
    }
  }

  lemma {:induction false} FindAfterAppend(conds: seq<DetailedCondition>, dc: DetailedCondition, kind: string)
    ensures Find(conds + [dc], kind) ==
            if Find(conds, kind).Some? then Find(conds, kind)
            else if dc.kind == kind then Some(dc) else None
  {
    if conds == [] {
      assert conds + [dc] == [dc];
    } else {
      assert (conds + [dc])[1..] == conds[1..] + [dc];
      FindAfterAppend(conds[1..], dc, kind);
    }
  }

  /** A condition as an update writes it. */
  function Stamped(pu: ProxyUpdate, dc: DetailedCondition): (out: DetailedCondition)
  {
    dc.(observedGeneration := pu.generation, lastTransitionTime := pu.transitionTime)
  }

  /** The newer of two conditions wins; of two equally new, the one that is written. */
  function Merged(current: Option<DetailedCondition>, written: DetailedCondition): (out: DetailedCondition)
    ensures out.observedGeneration >= written.observedGeneration
    ensures current.Some? ==> out.observedGeneration >= current.value.observedGeneration
  {
    if current.Some? && current.value.observedGeneration > written.observedGeneration then current.value else written
  }

  /** What an update makes of the condition of a kind. */
  function MergedFor(pu: ProxyUpdate, current: Option<DetailedCondition>,
                     kind: string): (out: Option<DetailedCondition>)
  {
    if kind in pu.conditions then Some(Merged(current, Stamped(pu, pu.conditions[kind]))) else current
  }

  /** Conditions are kept under their own kind; ConditionFor makes them so. */
  ghost predicate KeyedByKind(pu: ProxyUpdate)
  {
    forall k :: k in pu.conditions ==> pu.conditions[k].kind == k
  }

  /** One condition is merged, the others stay as and where they are. */
  ghost predicate IsMergeOf(conds: seq<DetailedCondition>, cond: DetailedCondition, out: seq<DetailedCondition>)
  {
    && (forall kind :: Find(out, kind) ==
          if kind == cond.kind then Some(Merged(Find(conds, kind), cond)) else Find(conds, kind))
    && |out| >= |conds|
    && (forall i :: 0 <= i < |conds| ==>
          out[i].kind == conds[i].kind && (conds[i].kind != cond.kind ==> out[i] == conds[i]))
  }

  /** One pass of the loop over the conditions of an update. */
  method MergeOne(conds: seq<DetailedCondition>, cond: DetailedCondition) returns (out: seq<DetailedCondition>)
    ensures IsMergeOf(conds, cond, out)
  {
    out := conds;
    var current := GetConditionFor(conds, cond.kind);
    if current.None? {
      out := conds + [cond];
      forall kind ensures Find(out, kind) == if kind == cond.kind then Some(cond) else Find(conds, kind)
      {
        FindAfterAppend(conds, cond, kind);
      }
    } else if conds[current.value].observedGeneration <= cond.observedGeneration {
      out := conds[current.value := cond];
      forall kind ensures Find(out, kind) == if kind == cond.kind then Some(cond) else Find(conds, kind)
      {
        FindAfterUpdate(conds, current.value, cond, kind);
      }
    }
  }

  /** The conditions when only those of `todo` are still to be merged. */
  ghost predicate MergedBut(pu: ProxyUpdate, conds: seq<DetailedCondition>, out: seq<DetailedCondition>,
                            todo: set<string>)
  {
    && (forall kind :: Find(out, kind) == if kind in todo then Find(conds, kind)
        else MergedFor(pu, Find(conds, kind), kind))
    && |out| >= |conds|
    && (forall i :: 0 <= i < |conds| ==>
          out[i].kind == conds[i].kind && (conds[i].kind !in pu.conditions ==> out[i] == conds[i]))
  }

  lemma MergedMore(pu: ProxyUpdate, conds: seq<DetailedCondition>, out: seq<DetailedCondition>, todo: set<string>,
                   k: string, next: seq<DetailedCondition>)
    requires KeyedByKind(pu) && k in todo && k in pu.conditions && MergedBut(pu, conds, out, todo)
    requires IsMergeOf(out, Stamped(pu, pu.conditions[k]), next)
    ensures MergedBut(pu, conds, next, todo - {k})
  {
  }

  /** The loop over the conditions of the update, in the order in which the map yields them. */
  method MergeConditions(pu: ProxyUpdate, conds: seq<DetailedCondition>) returns (out: seq<DetailedCondition>)
    requires KeyedByKind(pu)
    ensures forall kind :: Find(out, kind) == MergedFor(pu, Find(conds, kind), kind)
    ensures |out| >= |conds|
    ensures forall i :: 0 <= i < |conds| && conds[i].kind !in pu.conditions ==> out[i] == conds[i]
  {
    out := conds;
    var todo := pu.conditions.Keys;
    while todo != {}
      invariant todo <= pu.conditions.Keys && MergedBut(pu, conds, out, todo)
      decreases todo
    {
      var condType :| condType in todo;
      var next := MergeOne(out, Stamped(pu, pu.conditions[condType]));
      MergedMore(pu, conds, out, todo, condType, next);
      out := next;
      todo := todo - {condType};
    }
  }

  /** The two older fields repeat the Valid condition, and say which invalid objects are
      orphans. A status that is neither True nor False leaves them alone. */
  ghost predicate Summarises(out: ProxyStatus, valid: DetailedCondition, before: ProxyStatus)
  {
    match valid.status
    case ConditionTrue => out.currentStatus == "valid" && out.description == valid.message
    case ConditionFalse =>
      if HasError(valid, OrphanedError)
      then out.currentStatus == "orphaned"
           && exists e :: e in valid.errors && e.kind == OrphanedError && out.description == e.message
      else out.currentStatus == "invalid" && out.description == valid.message
    case ConditionUnknown => out.currentStatus == before.currentStatus && out.description == before.description
  }

  /** The conditions of a status before and after a call of Mutate. */
  ghost predicate Mutated(pu: ProxyUpdate, before: ProxyStatus, after: ProxyStatus)
  {
    forall kind :: Find(after.conditions, kind) == MergedFor(pu, Find(before.conditions, kind), kind)
  }

  /** Mutate needs a Valid condition, in the update or already in the object. */
  method Mutate(pu: ProxyUpdate, status: ProxyStatus) returns (out: ProxyStatus)
    requires KeyedByKind(pu)
    requires VALID in pu.conditions || Find(status.conditions, VALID).Some?
    ensures Mutated(pu, status, out)
    ensures forall i :: 0 <= i < |status.conditions| && status.conditions[i].kind !in pu.conditions ==>
              i < |out.conditions| && out.conditions[i] == status.conditions[i]
    ensures Find(out.conditions, VALID).Some? && Summarises(out, Find(out.conditions, VALID).value, status)
  {
    var conds := MergeConditions(pu, status.conditions);
    out := status.(conditions := conds);
    var i := GetConditionFor(conds, VALID);
    assert i.Some?;
    var validCond := conds[i.value];
    match validCond.status {
      case ConditionTrue =>
        out := out.(currentStatus := "valid", description := validCond.message);
      case ConditionFalse =>
        var orphan := GetError(validCond, OrphanedError);
        if orphan.Some? {
          out := out.(currentStatus := "orphaned", description := orphan.value.message);
        } else {
          out := out.(currentStatus := "invalid", description := validCond.message);
        }
      case ConditionUnknown =>
    }
  }

  // ----- many updates --------------------------------------------------------------------------

  /** The condition of a kind after a sequence of updates. */
  function MergedAll(pus: seq<ProxyUpdate>, current: Option<DetailedCondition>,
                     kind: string): (out: Option<DetailedCondition>)
  {
    if pus == [] then current
    else MergedAll(pus[1..], MergedFor(pus[0], current, kind), kind)
  }

  lemma {:induction false} MergedIsNoOlder(pus: seq<ProxyUpdate>, current: Option<DetailedCondition>, kind: string)
    ensures current.Some? ==>
              && MergedAll(pus, current, kind).Some?
              && MergedAll(pus, current, kind).value.observedGeneration >= current.value.observedGeneration
    ensures (forall i :: 0 <= i < |pus| ==> kind !in pus[i].conditions) ==> MergedAll(pus, current, kind) == current
  {
    if pus != [] {
      MergedIsNoOlder(pus[1..], MergedFor(pus[0], current, kind), kind);
    }
  }

  /** Update k wrote the condition that is there in the end: no other update has a higher
      generation, and none after it has the same. */
  ghost predicate LastNewest(pus: seq<ProxyUpdate>, kind: string, k: nat)
  {
    && k < |pus| && kind in pus[k].conditions
    && (forall i :: 0 <= i < |pus| && kind in pus[i].conditions ==> pus[i].generation <= pus[k].generation)
    && (forall i :: k < i < |pus| && kind in pus[i].conditions ==> pus[i].generation < pus[k].generation)
  }

  /** What is there in the end is the last condition of the newest generation written, or
      what was there if that is newer. */
  lemma {:induction false} NewestIsMerged(pus: seq<ProxyUpdate>, current: Option<DetailedCondition>, kind: string)
    ensures var out := MergedAll(pus, current, kind);
            || (out == current
                && forall i :: 0 <= i < |pus| && kind in pus[i].conditions ==>
                     current.Some? && pus[i].generation < current.value.observedGeneration)
            || exists k: nat :: LastNewest(pus, kind, k) && out == Some(Stamped(pus[k], pus[k].conditions[kind]))
  {
    if pus != [] {
      var mid := MergedFor(pus[0], current, kind);
      NewestIsMerged(pus[1..], mid, kind);
      var out := MergedAll(pus, current, kind);
      if exists k: nat :: LastNewest(pus[1..], kind, k)
                          && out == Some(Stamped(pus[1..][k], pus[1..][k].conditions[kind])) {
        var k: nat :| LastNewest(pus[1..], kind, k) && out == Some(Stamped(pus[1..][k], pus[1..][k].conditions[kind]));
        NewestShift(pus, current, kind, k);
      } else {
        assert forall i :: 1 <= i < |pus| ==> pus[i] == pus[1..][i - 1];
        if kind in pus[0].conditions && mid == Some(Stamped(pus[0], pus[0].conditions[kind])) {
          assert LastNewest(pus, kind, 0);
        }
      }
    }
  }

  lemma NewestShift(pus: seq<ProxyUpdate>, current: Option<DetailedCondition>, kind: string, k: nat)
    requires pus != [] && LastNewest(pus[1..], kind, k)
    requires MergedAll(pus, current, kind) == Some(Stamped(pus[1..][k], pus[1..][k].conditions[kind]))
    ensures LastNewest(pus, kind, k + 1)
    ensures pus[k + 1] == pus[1..][k]
  {
    var mid := MergedFor(pus[0], current, kind);
    assert forall i :: 1 <= i < |pus| ==> pus[i] == pus[1..][i - 1];
    MergedIsNoOlder(pus[1..], mid, kind);
  }

  // ----- the history of a stored object -------------------------------------------------------

  /** What a stored object went through: one call of Mutate after another, each on the
      status that the one before it left. */
  ghost predicate IsHistory(pus: seq<ProxyUpdate>, sts: seq<ProxyStatus>)
  {
    |sts| == |pus| + 1 && forall i :: 0 <= i < |pus| ==> Mutated(pus[i], sts[i], sts[i + 1])
  }

  lemma HistoryTail(pus: seq<ProxyUpdate>, sts: seq<ProxyStatus>)
    requires IsHistory(pus, sts) && pus != []
    ensures IsHistory(pus[1..], sts[1..])
  {
    forall i | 0 <= i < |pus[1..]|
      ensures Mutated(pus[1..][i], sts[1..][i], sts[1..][i + 1])
    {
      assert Mutated(pus[i + 1], sts[i + 1], sts[i + 2]);
    }
  }

  lemma {:induction false} HistoryMerges(pus: seq<ProxyUpdate>, sts: seq<ProxyStatus>, kind: string)
    requires IsHistory(pus, sts)
    ensures Find(sts[|pus|].conditions, kind) == MergedAll(pus, Find(sts[0].conditions, kind), kind)
  {
    if pus != [] {
      HistoryTail(pus, sts);
      HistoryMerges(pus[1..], sts[1..], kind);
      assert Mutated(pus[0], sts[0], sts[1]);
    }
  }

  /** A part of a history is a history. */
  lemma HistoryPart(pus: seq<ProxyUpdate>, sts: seq<ProxyStatus>, i: nat, j: nat)
    requires IsHistory(pus, sts) && i <= j <= |pus|
    ensures IsHistory(pus[i..j], sts[i..j + 1])
  {
    forall k | 0 <= k < j - i
      ensures Mutated(pus[i..j][k], sts[i..j + 1][k], sts[i..j + 1][k + 1])
    {
      assert Mutated(pus[i + k], sts[i + k], sts[i + k + 1]);
    }
  }

  /** In every history the generation of a stored condition never goes down, nor does the
      condition vanish; and between two states with no update of its kind it stays as it is. */
  lemma GenerationNeverDecreases(pus: seq<ProxyUpdate>, sts: seq<ProxyStatus>, kind: string, i: nat, j: nat)
    requires IsHistory(pus, sts) && i <= j <= |pus|
    ensures var before, after := Find(sts[i].conditions, kind), Find(sts[j].conditions, kind);
            && (before.Some? ==> after.Some? && after.value.observedGeneration >= before.value.observedGeneration)
            && ((forall k :: i <= k < j ==> kind !in pus[k].conditions) ==> after == before)
  {
    HistoryPart(pus, sts, i, j);
    HistoryMerges(pus[i..j], sts[i..j + 1], kind);
    MergedIsNoOlder(pus[i..j], Find(sts[i].conditions, kind), kind);
  }

  /** Late and reordered updates do not matter: what is stored at the end of a history is the
      last condition of the newest generation written, or what was stored at its start if
      that is newer. */
  lemma NewestWins(pus: seq<ProxyUpdate>, sts: seq<ProxyStatus>, kind: string)
    requires IsHistory(pus, sts)
    ensures var before, after := Find(sts[0].conditions, kind), Find(sts[|pus|].conditions, kind);
            || (after == before
                && forall i :: 0 <= i < |pus| && kind in pus[i].conditions ==>
                     before.Some? && pus[i].generation < before.value.observedGeneration)
            || exists k: nat ::
                 && LastNewest(pus, kind, k)
                 && after == Some(pus[k].conditions[kind].(observedGeneration := pus[k].generation,
                                                           lastTransitionTime := pus[k].transitionTime))
  {
    HistoryMerges(pus, sts, kind);
    NewestIsMerged(pus, Find(sts[0].conditions, kind), kind);
  }
}
