/** What header conditions and header matches say about a request: the conditions by the fields of
    the API (apis/projectsesame/v1/httpproxy.go), the matches by their type, value and inversion
    (internal/envoy/v3/route.go), and that merging keeps the meaning (internal/dag/conditions.go). */
module HeaderMeaning {
  import opened Text
  import opened Dag
  import opened Conditions

  /** The headers of a request, by name. `absent` is what the proxy answers when an inverted match
      of a value meets a header that is not there; nothing is assumed about it, nor about
      regular expressions. */
  datatype Headers = Headers(
    valueOf: string -> Option<string>,
    absent: bool,
    regexMatches: (string, string) -> bool)

  ghost predicate Contains(v: string, part: string)
  {
    exists i :: 0 <= i <= |v| && part <= v[i..]
  }

  /** A header match holds of a request. */
  ghost predicate MatchHolds(m: HeaderMatch, hs: Headers)
  {
    var v := hs.valueOf(m.name);
    match m.matchType
    case MatchPresent => v.Some? != m.invert
    case MatchExact => if v.None? then m.invert && hs.absent else (v.value == m.value) != m.invert
    case MatchContains => if v.None? then m.invert && hs.absent else Contains(v.value, m.value) != m.invert
    case MatchRegex => if v.None? then m.invert && hs.absent else hs.regexMatches(m.value, v.value) != m.invert
  }

  ghost predicate AllHold(ms: seq<HeaderMatch>, hs: Headers)
  {
    forall i :: 0 <= i < |ms| ==> MatchHolds(ms[i], hs)
  }

  /** A header condition holds of a request: all the predicates that it sets do. */
  ghost predicate ConditionHolds(h: HeaderCondition, hs: Headers)
  {
    var v := hs.valueOf(h.name);
    && (h.present ==> v.Some?)
    && (h.notPresent ==> v.None?)
    && (h.contains != "" ==> v.Some? && Contains(v.value, h.contains))
    && (h.notContains != "" ==> if v.Some? then !Contains(v.value, h.notContains) else hs.absent)
    && (h.exact != "" ==> v == Some(h.exact))
    && (h.notExact != "" ==> if v.Some? then v.value != h.notExact else hs.absent)
  }

  function AsNumber(b: bool): (n: nat)
  {
    if b then 1 else 0
  }

  /** How many predicates a condition sets. */
  function PredicatesSet(h: HeaderCondition): (n: nat)
  {
    AsNumber(h.present) + AsNumber(h.notPresent) + AsNumber(h.contains != "") + AsNumber(h.notContains != "")
    + AsNumber(h.exact != "") + AsNumber(h.notExact != "")
  }

  /** The one match of a condition says all that the condition does: it sets one predicate at
      most, or a second one, `notexact`, that follows from the first. */
  ghost predicate NothingIsIgnored(h: HeaderCondition)
  {
    || PredicatesSet(h) <= 1
    || (&& PredicatesSet(h) == 2 && h.notExact != ""
        && (|| (h.contains != "" && !Contains(h.notExact, h.contains))
            || (h.notContains != "" && Contains(h.notExact, h.notContains))
            || (h.exact != "" && h.exact != h.notExact)))
  }

  // ----- one condition -----------------------------------------------------------------------------

  ghost predicate MergedHolds(h: HeaderCondition, hs: Headers)
  {
    AllHold(ToHeaderMatch(h), hs)
  }

  lemma OneMatch(h: HeaderCondition, hs: Headers)
    ensures MergedHolds(h, hs) <==> (ToHeaderMatch(h) != [] ==> MatchHolds(ToHeaderMatch(h)[0], hs))
  {
  }

  /** It does say it. */
  lemma ConditionMeaning(h: HeaderCondition, hs: Headers)
    requires NothingIsIgnored(h)
    ensures MergedHolds(h, hs) <==> ConditionHolds(h, hs)
  {
    OneMatch(h, hs);
  }

  function Only(v: Option<string>, absent: bool): (hs: Headers)
  {
    Headers(_ => v, absent, (_, _) => false)
  }

  lemma ContainsItself(v: string, before: string, after: string)
    ensures Contains(before + v + after, v)
  {
    assert (before + v + after)[|before|..] == v + after;
  }

  lemma EmptyContainsNothing(part: string)
    requires part != ""
    ensures !Contains("", part)
  {
  }

  lemma LongerIsDifferent(a: string, b: string)
    requires a != ""
    ensures a + b != b
  {
  }

  /** Otherwise some request tells them apart. */
  lemma SomethingIsIgnored(h: HeaderCondition) returns (hs: Headers)
    requires !NothingIsIgnored(h)
    ensures MergedHolds(h, hs) != ConditionHolds(h, hs)
  {
    if h.present {
      hs := if h.notContains != "" then Only(Some(h.notContains), true)
            else if h.notExact != "" then Only(Some(h.notExact), true) else Only(Some(""), true);
      ContainsItself(h.notContains, "", "");
      assert "" + h.notContains + "" == h.notContains;
      if h.contains != "" {
        EmptyContainsNothing(h.contains);
      }
    } else if h.notPresent {
      hs := Only(None, false);
    } else if h.contains != "" {
      hs := IgnoredAfterContains(h);
    } else if h.notContains != "" {
      hs := if h.exact != "" then Only(None, true) else Only(Some(h.notExact), true);
    } else {
      hs := Only(Some(h.exact), true);
    }
    OneMatch(h, hs);
  }

  lemma BothAreContained(a: string, b: string)
    ensures Contains(a + b, a) && Contains(a + b, b)
  {
    ContainsItself(a, "", b);
    ContainsItself(b, a, "");
    assert "" + a + b == a + b == a + b + "";
  }

  lemma IgnoredAfterContains(h: HeaderCondition) returns (hs: Headers)
    requires !NothingIsIgnored(h) && !h.present && !h.notPresent && h.contains != ""
    ensures MergedHolds(h, hs) != ConditionHolds(h, hs)
  {
    var v := h.notExact;
    if h.notContains != "" {
      v := h.contains + h.notContains;
      BothAreContained(h.contains, h.notContains);
    } else if h.exact != "" {
      v := h.contains + h.exact;
      BothAreContained(h.contains, h.exact);
      LongerIsDifferent(h.contains, h.exact);
    }
    hs := Only(Some(v), true);
    ContainsIsMatched(h, v);
  }

  lemma ContainsIsMatched(h: HeaderCondition, v: string)
    requires !h.present && !h.notPresent && h.contains != ""
    ensures MergedHolds(h, Only(Some(v), true)) <==> Contains(v, h.contains)
  {
    OneMatch(h, Only(Some(v), true));
  }

  /** A condition becomes a match that means the same exactly if nothing of it is ignored. */
  lemma MeaningIsKeptWhen(h: HeaderCondition)
    ensures (forall hs :: MergedHolds(h, hs) <==> ConditionHolds(h, hs)) <==> NothingIsIgnored(h)
  {
    if NothingIsIgnored(h) {
      forall hs
        ensures MergedHolds(h, hs) <==> ConditionHolds(h, hs)
      {
        ConditionMeaning(h, hs);
      }
    } else {
      var hs := SomethingIsIgnored(h);
    }
  }

  // ----- chains of conditions -------------------------------------------------------------------------

  /** All the header conditions of a chain hold of a request. */
  ghost predicate ChainHolds(conds: seq<MatchCondition>, hs: Headers)
  {
    forall i :: 0 <= i < |conds| && conds[i].header.Some? ==> ConditionHolds(conds[i].header.value, hs)
  }

  ghost predicate NoneIgnored(conds: seq<MatchCondition>)
  {
    forall i :: 0 <= i < |conds| && conds[i].header.Some? ==> NothingIsIgnored(conds[i].header.value)
  }

  lemma AllHoldConcat(a: seq<HeaderMatch>, b: seq<HeaderMatch>, hs: Headers)
    ensures AllHold(a + b, hs) <==> AllHold(a, hs) && AllHold(b, hs)
  {
    var all := a + b;
    assert forall i :: 0 <= i < |a| ==> all[i] == a[i];
    assert forall i :: 0 <= i < |b| ==> all[|a| + i] == b[i];
  }

  /** The merged header matches of a chain hold of a request exactly if all its header conditions do. */
  lemma {:induction false} MergedMeaning(conds: seq<MatchCondition>, hs: Headers)
    requires NoneIgnored(conds)
    ensures AllHold(MergedHeaders(conds), hs) <==> ChainHolds(conds, hs)
  {
    if conds != [] {
      var first, rest := conds[0].header, conds[1..];
      assert forall i :: 0 <= i < |rest| ==> rest[i] == conds[i + 1];
      MergedMeaning(rest, hs);
      if first.Some? {
        ConditionMeaning(first.value, hs);
      }
      AllHoldConcat(if first.Some? then ToHeaderMatch(first.value) else [], MergedHeaders(rest), hs);
      ChainHoldsStep(conds, hs);
    }
  }

  lemma ChainHoldsStep(conds: seq<MatchCondition>, hs: Headers)
    requires conds != []
    ensures ChainHolds(conds, hs) <==>
            (conds[0].header.Some? ==> ConditionHolds(conds[0].header.value, hs)) && ChainHolds(conds[1..], hs)
  {
    var rest := conds[1..];
    assert forall i :: 0 <= i < |rest| ==> rest[i] == conds[i + 1];
    if ChainHolds(rest, hs) && (conds[0].header.Some? ==> ConditionHolds(conds[0].header.value, hs)) {
      forall i | 0 <= i < |conds| && conds[i].header.Some?
        ensures ConditionHolds(conds[i].header.value, hs)
      {
        assert i > 0 ==> rest[i - 1] == conds[i];
      }
    }
  }
}
