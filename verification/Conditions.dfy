/** Match conditions of includes and routes (internal/dag/conditions.go): merging a
    chain of condition blocks into one path prefix and one list of header matches,
    and the checks made on a block before it is merged. */
module Conditions {
  import opened Text
  import opened Dag

  /** The API form of a header condition; one struct may set several predicates. */
  datatype HeaderCondition = HeaderCondition(
    name: string,
    present: bool, notPresent: bool,
    contains: string, notContains: string,
    exact: string, notExact: string)

  datatype MatchCondition = MatchCondition(prefix: string, header: Option<HeaderCondition>)

  /** A chain of blocks, read as one list of conditions. */
  function Flatten(blocks: seq<seq<MatchCondition>>): (conds: seq<MatchCondition>)
  {
    if blocks == [] then [] else blocks[0] + Flatten(blocks[1..])
  }

  lemma {:induction false} FlattenSnoc(blocks: seq<seq<MatchCondition>>, last: seq<MatchCondition>)
    ensures Flatten(blocks + [last]) == Flatten(blocks) + last
  {
    if blocks == [] {
      assert [last][1..] == [];
      assert blocks + [last] == [last];
    } else {
      assert (blocks + [last])[1..] == blocks[1..] + [last];
      FlattenSnoc(blocks[1..], last);
    }
  }

  // ----- path prefixes ---------------------------------------------------------

  function JoinedPrefixes(conds: seq<MatchCondition>): (p: string)
  {
    if conds == [] then "" else conds[0].prefix + JoinedPrefixes(conds[1..])
  }

  lemma {:induction false} JoinedPrefixesConcat(a: seq<MatchCondition>, b: seq<MatchCondition>)
    ensures JoinedPrefixes(a + b) == JoinedPrefixes(a) + JoinedPrefixes(b)
  {
    if a == [] {
      assert a + b == b;
    } else {
      assert (a + b)[1..] == a[1..] + b;
      JoinedPrefixesConcat(a[1..], b);
    }
  }

  /** All prefixes in order, slashes collapsed, the root path when there is none. */
  function MergedPrefix(conds: seq<MatchCondition>): (p: string)
  {
    var joined := Collapse(JoinedPrefixes(conds));
    if joined == "" then "/" else joined
  }

  method MergePathMatchConditions(conds: seq<MatchCondition>) returns (m: PathMatch)
    ensures m == Prefix(MergedPrefix(conds), StringPrefix)
  {
    var prefix := "";
    for i := 0 to |conds|
      invariant prefix == JoinedPrefixes(conds[..i])
    {
      prefix := prefix + conds[i].prefix;
      assert conds[..i + 1] == conds[..i] + [conds[i]];
      JoinedPrefixesConcat(conds[..i], [conds[i]]);
    }
    assert conds[..|conds|] == conds;
    prefix := Collapse(prefix);
    if prefix == "" {
      prefix := "/";
    }
    m := Prefix(prefix, StringPrefix);
  }

  /** What a condition block may say about the path: at most one prefix, and that
      one starts with a slash. */
  ghost predicate PathBlockOk(conds: seq<MatchCondition>)
  {
    && (forall i :: 0 <= i < |conds| && conds[i].prefix != "" ==> conds[i].prefix[0] == '/')
    && (forall i, j :: 0 <= i < j < |conds| ==> conds[i].prefix == "" || conds[j].prefix == "")
  }

  datatype PathError = NotAbsolute(prefix: string) | MoreThanOnePrefix

  /** The error names the first condition that breaks the block, and how. */
  method PathMatchConditionsValid(conds: seq<MatchCondition>) returns (err: Option<PathError>)
    ensures err.None? <==> PathBlockOk(conds)
    ensures err.Some? ==> exists k :: 0 <= k < |conds| && PathBlockOk(conds[..k]) && conds[k].prefix != ""
                            && err.value == if conds[k].prefix[0] != '/' then NotAbsolute(conds[k].prefix)
                                            else MoreThanOnePrefix
  {
    var prefixCount := 0;
    for i := 0 to |conds|
      invariant PathBlockOk(conds[..i])
      invariant prefixCount <= 1
      invariant prefixCount == 0 <==> forall k :: 0 <= k < i ==> conds[k].prefix == ""
    {
      var block := conds[..i];
      assert forall k :: 0 <= k < i ==> block[k] == conds[k];
      if conds[i].prefix != "" {
        prefixCount := prefixCount + 1;
        if conds[i].prefix[0] != '/' {
          return Some(NotAbsolute(conds[i].prefix));
        }
      }
      if prefixCount > 1 {
        return Some(MoreThanOnePrefix);
      }
    }
    assert conds[..|conds|] == conds;
    return None;
  }

  /** Every non-empty prefix starts with a slash; this is what a chain of valid
      blocks gives. */
  ghost predicate Absolute(conds: seq<MatchCondition>)
  {
    forall i :: 0 <= i < |conds| && conds[i].prefix != "" ==> conds[i].prefix[0] == '/'
  }

  lemma AbsoluteConcat(a: seq<MatchCondition>, b: seq<MatchCondition>)
    requires Absolute(a) && Absolute(b)
    ensures Absolute(a + b)
  {
  }

  lemma {:induction false} ValidBlocksAreAbsolute(blocks: seq<seq<MatchCondition>>)
    requires forall i :: 0 <= i < |blocks| ==> PathBlockOk(blocks[i])
    ensures Absolute(Flatten(blocks))
  {
    if blocks != [] {
      ValidBlocksAreAbsolute(blocks[1..]);
    }
  }

  lemma {:induction false} JoinedStartsWithSlash(conds: seq<MatchCondition>)
    requires Absolute(conds)
    ensures JoinedPrefixes(conds) == "" || JoinedPrefixes(conds)[0] == '/'
  {
    if conds != [] {
      assert forall i :: 0 <= i < |conds[1..]| ==> conds[1..][i] == conds[i + 1];
      JoinedStartsWithSlash(conds[1..]);
    }
  }

  lemma AbsoluteMergesToNormal(conds: seq<MatchCondition>)
    requires Absolute(conds)
    ensures SlashNormal(MergedPrefix(conds))
  {
    JoinedStartsWithSlash(conds);
    CollapseIsNormal(JoinedPrefixes(conds));
  }

  /** A chain of blocks that each pass the check merges to a path in normal form. */
  lemma ChainMergesToNormal(blocks: seq<seq<MatchCondition>>)
    requires forall i :: 0 <= i < |blocks| ==> PathBlockOk(blocks[i])
    ensures SlashNormal(MergedPrefix(Flatten(blocks)))
  {
    ValidBlocksAreAbsolute(blocks);
    AbsoluteMergesToNormal(Flatten(blocks));
  }

  /** Merging one level of includes at a time, collapsing after each level. */
  function LevelByLevel(blocks: seq<seq<MatchCondition>>, above: string): (p: string)
  {
    if blocks == [] then above
    else LevelByLevel(blocks[1..], Collapse(above + JoinedPrefixes(blocks[0])))
  }

  lemma {:induction false} LevelByLevelIsAtOnce(blocks: seq<seq<MatchCondition>>, above: string)
    requires NoDoubleSlash(above)
    ensures LevelByLevel(blocks, above) == Collapse(above + JoinedPrefixes(Flatten(blocks)))
  {
    if blocks == [] {
      assert above + "" == above;
      CollapseOfNormal(above);
    } else {
      var here, below := JoinedPrefixes(blocks[0]), JoinedPrefixes(Flatten(blocks[1..]));
      CollapseIsNormal(above + here);
      LevelByLevelIsAtOnce(blocks[1..], Collapse(above + here));
      CollapseAbsorbsLeft(above + here, below);
      JoinedPrefixesConcat(blocks[0], Flatten(blocks[1..]));
      Regroup(above, here, below);
    }
  }

  /** Merging level by level, from nothing, is merging the whole chain at once. */
  lemma MergeLevelsIsMergeAtOnce(blocks: seq<seq<MatchCondition>>)
    ensures MergedPrefix(Flatten(blocks)) == (var p := LevelByLevel(blocks, ""); if p == "" then "/" else p)
  {
    LevelByLevelIsAtOnce(blocks, "");
    assert "" + JoinedPrefixes(Flatten(blocks)) == JoinedPrefixes(Flatten(blocks));
  }

  // ----- header matches -----------------------------------------------------------

  /** The one match a header condition stands for, if it sets any predicate. */
  function ToHeaderMatch(h: HeaderCondition): (m: seq<HeaderMatch>)
    ensures |m| <= 1
  {
    if h.present then [HeaderMatch(h.name, "", MatchPresent, false)]
    else if h.notPresent then [HeaderMatch(h.name, "", MatchPresent, true)]
    else if h.contains != "" then [HeaderMatch(h.name, h.contains, MatchContains, false)]
    else if h.notContains != "" then [HeaderMatch(h.name, h.notContains, MatchContains, true)]
    else if h.exact != "" then [HeaderMatch(h.name, h.exact, MatchExact, false)]
    else if h.notExact != "" then [HeaderMatch(h.name, h.notExact, MatchExact, true)]
    else []
  }

  function MergedHeaders(conds: seq<MatchCondition>): (hs: seq<HeaderMatch>)
  {
    if conds == [] then []
    else (if conds[0].header.Some? then ToHeaderMatch(conds[0].header.value) else []) + MergedHeaders(conds[1..])
  }

  /** Header conditions of a chain are the conditions of its blocks, in order. */
  lemma {:induction false} MergedHeadersConcat(a: seq<MatchCondition>, b: seq<MatchCondition>)
    ensures MergedHeaders(a + b) == MergedHeaders(a) + MergedHeaders(b)
  {
    if a == [] {
      assert a + b == b;
    } else {
      assert (a + b)[1..] == a[1..] + b;
      MergedHeadersConcat(a[1..], b);
    }
  }

  function HeaderIn(cond: MatchCondition): (hs: seq<HeaderCondition>)
  {
    if cond.header.Some? then [cond.header.value] else []
  }

  function HeadersOf(conds: seq<MatchCondition>): (hs: seq<HeaderCondition>)
  {
    if conds == [] then [] else HeaderIn(conds[0]) + HeadersOf(conds[1..])
  }

  lemma {:induction false} HeadersOfConcat(a: seq<MatchCondition>, b: seq<MatchCondition>)
    ensures HeadersOf(a + b) == HeadersOf(a) + HeadersOf(b)
  {
    if a == [] {
      assert a + b == b;
    } else {
      assert (a + b)[1..] == a[1..] + b;
      HeadersOfConcat(a[1..], b);
      Regroup(HeaderIn(a[0]), HeadersOf(a[1..]), HeadersOf(b));
    }
  }

  lemma HeadersOfStep(conds: seq<MatchCondition>, i: nat)
    requires i < |conds|
    ensures HeadersOf(conds[..i + 1]) ==
            HeadersOf(conds[..i]) + HeaderIn(conds[i])
  {
    assert conds[..i + 1] == conds[..i] + [conds[i]];
    HeadersOfConcat(conds[..i], [conds[i]]);
  }

  function MatchesOf(hs: seq<HeaderCondition>): (ms: seq<HeaderMatch>)
  {
    if hs == [] then [] else ToHeaderMatch(hs[0]) + MatchesOf(hs[1..])
  }

  lemma {:induction false} MatchesOfConcat(a: seq<HeaderCondition>, b: seq<HeaderCondition>)
    ensures MatchesOf(a + b) == MatchesOf(a) + MatchesOf(b)
  {
    if a == [] {
      assert a + b == b;
    } else {
      assert (a + b)[1..] == a[1..] + b;
      MatchesOfConcat(a[1..], b);
    }
  }

  lemma {:induction false} MatchesOfHeaders(conds: seq<MatchCondition>)
    ensures MatchesOf(HeadersOf(conds)) == MergedHeaders(conds)
  {
    if conds != [] {
      MatchesOfHeaders(conds[1..]);
      var first := if conds[0].header.Some? then [conds[0].header.value] else [];
      MatchesOfConcat(first, HeadersOf(conds[1..]));
    }
  }

  method HeaderMatchConditions(conditions: seq<HeaderCondition>) returns (hc: seq<HeaderMatch>)
    ensures hc == MatchesOf(conditions)
  {
    hc := [];
    for i := 0 to |conditions|
      invariant hc == MatchesOf(conditions[..i])
    {
      var cond := conditions[i];
      assert conditions[..i + 1] == conditions[..i] + [cond];
      MatchesOfConcat(conditions[..i], [cond]);
      if cond.present {
        hc := hc + [HeaderMatch(cond.name, "", MatchPresent, false)];
      } else if cond.notPresent {
        hc := hc + [HeaderMatch(cond.name, "", MatchPresent, true)];
      } else if cond.contains != "" {
        hc := hc + [HeaderMatch(cond.name, cond.contains, MatchContains, false)];
      } else if cond.notContains != "" {
        hc := hc + [HeaderMatch(cond.name, cond.notContains, MatchContains, true)];
      } else if cond.exact != "" {
        hc := hc + [HeaderMatch(cond.name, cond.exact, MatchExact, false)];
      } else if cond.notExact != "" {
        hc := hc + [HeaderMatch(cond.name, cond.notExact, MatchExact, true)];
      }
    }
    assert conditions[..|conditions|] == conditions;
  }

  method MergeHeaderMatchConditions(conds: seq<MatchCondition>) returns (hc: seq<HeaderMatch>)
    ensures hc == MergedHeaders(conds)
  {
    var headerConditions := [];
    for i := 0 to |conds|
      invariant headerConditions == HeadersOf(conds[..i])
    {
      assert conds[..i + 1] == conds[..i] + [conds[i]];
      HeadersOfConcat(conds[..i], [conds[i]]);
      if conds[i].header.Some? {
        headerConditions := headerConditions + [conds[i].header.value];
      }
    }
    assert conds[..|conds|] == conds;
    hc := HeaderMatchConditions(headerConditions);
    MatchesOfHeaders(conds);
  }

  // ----- contradictory header conditions ----------------------------------------------

  datatype HeaderError = PresentAndNotPresent | DuplicateExact | ExactAndNotExact | ContainsAndNotContains

  /** The map key of a condition: the struct with its name in lower case. */
  function Key(h: HeaderCondition): (k: HeaderCondition)
  {
    h.(name := ToLower(h.name))
  }

  const ANY := HeaderCondition("", false, false, "", "", "", "")

  /** The first predicate a condition sets, in the order in which they are looked at. */
  datatype Predicate = IsPresent | IsNotPresent | IsExact | IsNotExact | IsContains | IsNotContains | IsEmpty

  function FirstPredicate(h: HeaderCondition): (p: Predicate)
  {
    if h.present then IsPresent
    else if h.notPresent then IsNotPresent
    else if h.exact != "" then IsExact
    else if h.notExact != "" then IsNotExact
    else if h.contains != "" then IsContains
    else if h.notContains != "" then IsNotContains
    else IsEmpty
  }

  /** A later condition is rejected because of an earlier one: the earlier one's key
      is exactly the contradicting struct, or both are exact matches of one header. */
  predicate Rejects(earlier: HeaderCondition, later: HeaderCondition)
  {
    var key, name := Key(earlier), ToLower(later.name);
    match FirstPredicate(later)
    case IsPresent => key == ANY.(name := name, notPresent := true)
    case IsNotPresent => key == ANY.(name := name, present := true)
    case IsExact => (FirstPredicate(earlier) == IsExact && key.name == name)
                    || key == ANY.(name := name, notExact := later.exact)
    case IsNotExact => key == ANY.(name := name, exact := later.notExact)
    case IsContains => key == ANY.(name := name, notContains := later.contains)
    case IsNotContains => key == ANY.(name := name, contains := later.notContains)
    case IsEmpty => false
  }

  /** No condition is rejected because of one before it. */
  ghost predicate NoRejection(hs: seq<HeaderCondition>)
  {
    forall i, j :: 0 <= i < j < |hs| ==> !Rejects(hs[i], hs[j])
  }

  /** What the two maps of the scan hold after the conditions hs: all their keys, and
      the names that have an exact match. */
  ghost predicate Recorded(hs: seq<HeaderCondition>, seen: set<HeaderCondition>, exactNames: set<string>)
  {
    && (forall j :: 0 <= j < |hs| ==> Key(hs[j]) in seen)
    && (forall k :: k in seen ==> exists j :: 0 <= j < |hs| && Key(hs[j]) == k)
    && (forall j :: 0 <= j < |hs| && FirstPredicate(hs[j]) == IsExact ==> Key(hs[j]).name in exactNames)
    && (forall n :: n in exactNames ==>
          exists j :: 0 <= j < |hs| && FirstPredicate(hs[j]) == IsExact && Key(hs[j]).name == n)
  }

  /** The key that contradicts a condition, if one does. */
  function Opposite(h: HeaderCondition): (k: Option<HeaderCondition>)
  {
    var name := ToLower(h.name);
    match FirstPredicate(h)
    case IsPresent => Some(ANY.(name := name, notPresent := true))
    case IsNotPresent => Some(ANY.(name := name, present := true))
    case IsExact => Some(ANY.(name := name, notExact := h.exact))
    case IsNotExact => Some(ANY.(name := name, exact := h.notExact))
    case IsContains => Some(ANY.(name := name, notContains := h.contains))
    case IsNotContains => Some(ANY.(name := name, contains := h.notContains))
    case IsEmpty => None
  }

  predicate RejectedBy(header: HeaderCondition, seen: set<HeaderCondition>, exactNames: set<string>)
  {
    || (Opposite(header).Some? && Opposite(header).value in seen)
    || (FirstPredicate(header) == IsExact && ToLower(header.name) in exactNames)
  }

  /** What the maps hold says whether an earlier condition rejects this one. */
  lemma SeenTells(header: HeaderCondition, hs: seq<HeaderCondition>, seen: set<HeaderCondition>,
                  exactNames: set<string>)
    requires Recorded(hs, seen, exactNames)
    ensures (exists j :: 0 <= j < |hs| && Rejects(hs[j], header)) <==> RejectedBy(header, seen, exactNames)
  {
    if Opposite(header).Some? && Opposite(header).value in seen {
      var j :| 0 <= j < |hs| && Key(hs[j]) == Opposite(header).value;
      assert Rejects(hs[j], header);
    }
    if FirstPredicate(header) == IsExact && ToLower(header.name) in exactNames {
      var j :| 0 <= j < |hs| && FirstPredicate(hs[j]) == IsExact && Key(hs[j]).name == ToLower(header.name);
      assert Rejects(hs[j], header);
    }
    if j :| 0 <= j < |hs| && Rejects(hs[j], header) {
      assert Opposite(header) == Some(Key(hs[j])) ||
             (FirstPredicate(hs[j]) == IsExact && Key(hs[j]).name == ToLower(header.name));
    }
  }

  /** One turn of the scan. */
  method CheckAgainstSeen(header: HeaderCondition, seen: set<HeaderCondition>, exactNames: set<string>)
    returns (err: Option<HeaderError>)
    ensures err.Some? <==> RejectedBy(header, seen, exactNames)
  {
    var headerName := ToLower(header.name);
    err := None;
    if header.present {
      if ANY.(name := headerName, notPresent := true) in seen {
        err := Some(PresentAndNotPresent);
      }
    } else if header.notPresent {
      if ANY.(name := headerName, present := true) in seen {
        err := Some(PresentAndNotPresent);
      }
    } else if header.exact != "" {
      if headerName in exactNames {
        err := Some(DuplicateExact);
      } else if ANY.(name := headerName, notExact := header.exact) in seen {
        err := Some(ExactAndNotExact);
      }
    } else if header.notExact != "" {
      if ANY.(name := headerName, exact := header.notExact) in seen {
        err := Some(ExactAndNotExact);
      }
    } else if header.contains != "" {
      if ANY.(name := headerName, notContains := header.contains) in seen {
        err := Some(ContainsAndNotContains);
      }
    } else if header.notContains != "" {
      if ANY.(name := headerName, contains := header.notContains) in seen {
        err := Some(ContainsAndNotContains);
      }
    }
  }

  lemma RecordOne(hs: seq<HeaderCondition>, seen: set<HeaderCondition>, exactNames: set<string>, h: HeaderCondition)
    requires Recorded(hs, seen, exactNames)
    ensures Recorded(hs + [h], seen + {Key(h)},
                     if FirstPredicate(h) == IsExact then exactNames + {Key(h).name} else exactNames)
  {
    var all := hs + [h];
    assert all[|hs|] == h;
    forall k | k in seen + {Key(h)}
      ensures exists j :: 0 <= j < |all| && Key(all[j]) == k
    {
      if k in seen {
        var j :| 0 <= j < |hs| && Key(hs[j]) == k;
        assert all[j] == hs[j];
      }
    }
    forall n | n in exactNames
      ensures exists j :: 0 <= j < |all| && FirstPredicate(all[j]) == IsExact && Key(all[j]).name == n
    {
      var j :| 0 <= j < |hs| && FirstPredicate(hs[j]) == IsExact && Key(hs[j]).name == n;
      assert all[j] == hs[j];
    }
  }

  /** The scan with two seen-maps computes the relation between pairs, on every list. */
  method HeaderMatchConditionsValid(conditions: seq<MatchCondition>) returns (err: Option<HeaderError>)
    ensures err.None? <==> NoRejection(HeadersOf(conditions))
  {
    var seen: set<HeaderCondition>, exactNames: set<string> := {}, {};
    ghost var hs := [];
    for i := 0 to |conditions|
      invariant hs == HeadersOf(conditions[..i])
      invariant Recorded(hs, seen, exactNames)
      invariant NoRejection(hs)
    {
      HeadersOfStep(conditions, i);
      if conditions[i].header.None? {
        continue;
      }
      var header := conditions[i].header.value;
      SeenTells(header, hs, seen, exactNames);
      err := CheckAgainstSeen(header, seen, exactNames);
      if err.Some? {
        RejectedInside(conditions, i, hs, header);
        return;
      }
      RecordOne(hs, seen, exactNames, header);
      NoRejectionGrows(hs, header);
      if FirstPredicate(header) == IsExact {
        exactNames := exactNames + {Key(header).name};
      }
      // the lower-cased name makes comparisons case-insensitive
      seen := seen + {Key(header)};
      hs := hs + [header];
    }
    assert conditions[..|conditions|] == conditions;
    return None;
  }

  lemma NoRejectionGrows(hs: seq<HeaderCondition>, header: HeaderCondition)
    requires NoRejection(hs)
    requires !exists j :: 0 <= j < |hs| && Rejects(hs[j], header)
    ensures NoRejection(hs + [header])
  {
  }

  /** A rejection found part of the way is a rejection in the whole list. */
  lemma RejectedInside(conditions: seq<MatchCondition>, i: nat, hs: seq<HeaderCondition>, header: HeaderCondition)
    requires i < |conditions| && conditions[i].header == Some(header)
    requires hs == HeadersOf(conditions[..i])
    requires exists j :: 0 <= j < |hs| && Rejects(hs[j], header)
    ensures !NoRejection(HeadersOf(conditions))
  {
    HeadersAround(conditions, i, header);
    NoRejectionOfPrefix(hs, header, HeadersOf(conditions[i + 1..]));
  }

  lemma HeadersAround(conditions: seq<MatchCondition>, i: nat, header: HeaderCondition)
    requires i < |conditions| && conditions[i].header == Some(header)
    ensures HeadersOf(conditions) == HeadersOf(conditions[..i]) + [header] + HeadersOf(conditions[i + 1..])
  {
    HeadersOfStep(conditions, i);
    HeadersOfConcat(conditions[..i + 1], conditions[i + 1..]);
    assert conditions == conditions[..i + 1] + conditions[i + 1..];
  }

  lemma NoRejectionOfPrefix(hs: seq<HeaderCondition>, header: HeaderCondition, rest: seq<HeaderCondition>)
    requires exists j :: 0 <= j < |hs| && Rejects(hs[j], header)
    ensures !NoRejection(hs + [header] + rest)
  {
    var all := hs + [header] + rest;
    var j :| 0 <= j < |hs| && Rejects(hs[j], header);
    assert all[j] == hs[j] && all[|hs|] == header;
  }

  /** The rules of the documentation, which know nothing of keys and order: two
      conditions on one header (names compared without case) contradict each other. */
  predicate Contradict(a: HeaderCondition, b: HeaderCondition)
  {
    && ToLower(a.name) == ToLower(b.name)
    && (|| (a.present && b.notPresent) || (b.present && a.notPresent)
        || (a.exact != "" && b.exact != "")
        || (a.exact != "" && a.exact == b.notExact) || (b.exact != "" && b.exact == a.notExact)
        || (a.contains != "" && a.contains == b.notContains) || (b.contains != "" && b.contains == a.notContains))
  }

  /** The condition sets one predicate at most. */
  predicate SinglePredicate(h: HeaderCondition)
  {
    match FirstPredicate(h)
    case IsPresent => h == ANY.(name := h.name, present := true)
    case IsNotPresent => h == ANY.(name := h.name, notPresent := true)
    case IsExact => h == ANY.(name := h.name, exact := h.exact)
    case IsNotExact => h == ANY.(name := h.name, notExact := h.notExact)
    case IsContains => h == ANY.(name := h.name, contains := h.contains)
    case IsNotContains => h == ANY.(name := h.name, notContains := h.notContains)
    case IsEmpty => true
  }

  lemma RejectsIsContradict(earlier: HeaderCondition, later: HeaderCondition)
    requires SinglePredicate(earlier) && SinglePredicate(later)
    ensures Rejects(earlier, later) <==> Contradict(earlier, later)
  {
  }

  ghost predicate PairwiseConsistent(hs: seq<HeaderCondition>)
  {
    forall i, j :: 0 <= i < |hs| && 0 <= j < |hs| && i != j ==> !Contradict(hs[i], hs[j])
  }

  /** On conditions with one predicate each, the scan accepts exactly the lists in
      which no two conditions contradict each other. */
  lemma ScanIsPairwise(hs: seq<HeaderCondition>)
    requires forall i :: 0 <= i < |hs| ==> SinglePredicate(hs[i])
    ensures NoRejection(hs) <==> PairwiseConsistent(hs)
  {
    forall i, j | 0 <= i < |hs| && 0 <= j < |hs|
      ensures Rejects(hs[i], hs[j]) <==> Contradict(hs[i], hs[j])
      ensures Contradict(hs[i], hs[j]) <==> Contradict(hs[j], hs[i])
    {
      RejectsIsContradict(hs[i], hs[j]);
    }
    if NoRejection(hs) {
      forall i, j | 0 <= i < |hs| && 0 <= j < |hs| && i != j
        ensures !Contradict(hs[i], hs[j])
      {
        var lo, hi := if i < j then i else j, if i < j then j else i;
        assert !Rejects(hs[lo], hs[hi]);
      }
    }
  }

  lemma {:induction false} TwoPositions<T>(s: seq<T>, x: T) returns (i: nat, j: nat)
    requires multiset(s)[x] >= 2
    ensures i < j < |s| && s[i] == x && s[j] == x
  {
    assert s == s[..|s| - 1] + [s[|s| - 1]];
    if s[|s| - 1] == x {
      j := |s| - 1;
      assert multiset(s[..j])[x] >= 1;
      assert x in s[..j];
      i :| 0 <= i < j && s[i] == x;
    } else {
      i, j := TwoPositions(s[..|s| - 1], x);
    }
  }

  /** Two different positions of a list, found again in any reordering of it. */
  lemma FindPair<T>(s: seq<T>, t: seq<T>, i: nat, j: nat) returns (k: nat, l: nat)
    requires multiset(s) == multiset(t)
    requires i < |s| && j < |s| && i != j
    ensures k < |t| && l < |t| && k != l && t[k] == s[i] && t[l] == s[j]
  {
    assert s[i] in multiset(t) && s[j] in multiset(t);
    if s[i] != s[j] {
      k :| 0 <= k < |t| && t[k] == s[i];
      l :| 0 <= l < |t| && t[l] == s[j];
    } else {
      var lo, hi := if i < j then i else j, if i < j then j else i;
      assert s == s[..lo] + [s[lo]] + s[lo + 1..hi] + [s[hi]] + s[hi + 1..];
      assert multiset(s)[s[i]] >= 2;
      k, l := TwoPositions(t, s[i]);
    }
  }

  // ----- order -------------------------------------------------------------------------------

  ghost predicate Over(hs: seq<HeaderCondition>, among: iset<HeaderCondition>)
  {
    forall i :: 0 <= i < |hs| ==> hs[i] in among
  }

  /** The order in which conditions of a set are written does not matter. */
  ghost predicate OrderFree(among: iset<HeaderCondition>)
  {
    forall hs, other :: Over(hs, among) && multiset(hs) == multiset(other) ==> (NoRejection(hs) <==> NoRejection(other))
  }

  ghost predicate Symmetric(among: iset<HeaderCondition>)
  {
    forall a, b :: a in among && b in among && Rejects(a, b) ==> Rejects(b, a)
  }

  lemma ReorderedIsAccepted(among: iset<HeaderCondition>, hs: seq<HeaderCondition>, other: seq<HeaderCondition>)
    requires Symmetric(among) && Over(hs, among) && multiset(hs) == multiset(other) && NoRejection(hs)
    ensures NoRejection(other)
  {
    forall i, j | 0 <= i < j < |other|
      ensures !Rejects(other[i], other[j])
    {
      var k, l := FindPair(other, hs, i, j);
      assert !Rejects(hs[if k < l then k else l], hs[if k < l then l else k]);
    }
  }

  lemma ReorderedIsOver(among: iset<HeaderCondition>, hs: seq<HeaderCondition>, other: seq<HeaderCondition>)
    requires Over(hs, among) && multiset(hs) == multiset(other)
    ensures Over(other, among)
  {
    forall i | 0 <= i < |other|
      ensures other[i] in among
    {
      assert other[i] in multiset(hs);
    }
  }

  lemma PairIsAccepted(a: HeaderCondition, b: HeaderCondition)
    ensures NoRejection([a, b]) <==> !Rejects(a, b)
  {
    var pair := [a, b];
    assert pair[0] == a && pair[1] == b;
  }

  /** Order is irrelevant on a set of conditions if and only if rejection is symmetric on it. */
  lemma OrderIsFreeWhen(among: iset<HeaderCondition>)
    ensures OrderFree(among) <==> Symmetric(among)
  {
    if Symmetric(among) {
      forall hs, other | Over(hs, among) && multiset(hs) == multiset(other)
        ensures NoRejection(hs) <==> NoRejection(other)
      {
        ReorderedIsOver(among, hs, other);
        if NoRejection(hs) {
          ReorderedIsAccepted(among, hs, other);
        } else if NoRejection(other) {
          ReorderedIsAccepted(among, other, hs);
        }
      }
    }
    if OrderFree(among) {
      forall a, b | a in among && b in among && Rejects(a, b)
        ensures Rejects(b, a)
      {
        PairIsAccepted(a, b);
        PairIsAccepted(b, a);
        assert Over([a, b], among) && multiset([a, b]) == multiset([b, a]);
      }
    }
  }

  ghost function Single(): (among: iset<HeaderCondition>)
  {
    iset h | SinglePredicate(h)
  }

  /** So, on conditions with one predicate each, the order does not matter. */
  lemma AcceptanceIgnoresOrder(hs: seq<HeaderCondition>, other: seq<HeaderCondition>)
    requires multiset(hs) == multiset(other)
    requires forall i :: 0 <= i < |hs| ==> SinglePredicate(hs[i])
    ensures NoRejection(hs) <==> NoRejection(other)
  {
    forall a, b | a in Single() && b in Single() && Rejects(a, b)
      ensures Rejects(b, a)
    {
      RejectsIsContradict(a, b);
      RejectsIsContradict(b, a);
    }
    OrderIsFreeWhen(Single());
    assert Over(hs, Single());
  }

  /** With two predicates in one condition the order does matter: the struct key of
      the first no longer equals the contradicting struct. */
  lemma OrderMattersWithTwoPredicates(name: string)
    ensures var both := ANY.(name := name, present := true, exact := "x");
            var absent := ANY.(name := name, notPresent := true);
            && Contradict(both, absent)
            && NoRejection([both, absent])
            && !NoRejection([absent, both])
  {
    var both := ANY.(name := name, present := true, exact := "x");
    var absent := ANY.(name := name, notPresent := true);
    var list := [absent, both];
    assert Rejects(list[0], list[1]);
  }
}
