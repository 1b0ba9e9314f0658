/** What the processor does to the status cache while it walks: it fills the condition of
    one open update, and opens, fills and commits updates of other proxies in between. */
module Reporting {
  import opened Kube
  import opened Status
  import opened Issues
  import opened Proxies
  import opened Compiler
  import opened Builds

  /** Every committed update carries a Valid condition. */
  ghost predicate Sound(st: CacheState)
  {
    forall n :: n in st.committed ==>
      st.committed[n] < |st.updates| && VALID in st.updates[st.committed[n]].conditions
  }

  /** The committed Valid conditions. */
  ghost function ViewOf(st: CacheState): (view: View)
    requires Sound(st)
  {
    map n | n in st.committed :: st.updates[st.committed[n]].conditions[VALID]
  }

  /** Update i is for a proxy, has a Valid condition and has not been committed. */
  ghost predicate IsOpen(st: CacheState, i: nat, name: Name)
  {
    && i < |st.updates| && st.updates[i].fullname == name
    && VALID in st.updates[i].conditions && st.updates[i].conditions[VALID].kind == VALID
    && forall n :: n in st.committed ==> st.committed[n] != i
  }

  ghost predicate ForProxies(env: Env, cs: seq<Commit>)
  {
    forall i :: 0 <= i < |cs| ==> cs[i].name in env.proxies
  }

  /** What is committed in st' is a new update, or it was committed before. */
  ghost predicate OnlyNewCommitted(st: CacheState, st': CacheState)
  {
    forall n :: n in st'.committed ==>
      st'.committed[n] >= |st.updates| || (n in st.committed && st'.committed[n] == st.committed[n])
  }

  /** From st to st' new updates were opened and committed, with this effect on the view.
      The updates that were there are as before and none of them was committed. */
  ghost predicate Progress(env: Env, st: CacheState, st': CacheState, cs: seq<Commit>)
    requires Sound(st) && Sound(st')
  {
    && ForProxies(env, cs)
    && st.updates <= st'.updates
    && OnlyNewCommitted(st, st')
    && ViewOf(st') == ShownAll(env, ViewOf(st), cs)
  }

  /** The same, said of every list that equals the commits: so it is taken apart only in the
      lemmas of this module. */
  ghost predicate Progressed(env: Env, st: CacheState, st': CacheState, cs: seq<Commit>)
  {
    Sound(st) && Sound(st') && forall list :: list == cs ==> Progress(env, st, st', list)
  }

  /** The condition with more errors and warnings. */
  ghost function Reported(dc: DetailedCondition, issues: seq<Issue>, warnings: seq<Issue>): (out: DetailedCondition)
  {
    WithWarnings(WithIssues(dc, issues), warnings)
  }

  ghost function Filled(st: CacheState, i: nat, issues: seq<Issue>, warnings: seq<Issue>): (st': CacheState)
    requires i < |st.updates| && VALID in st.updates[i].conditions
  {
    var pu := st.updates[i];
    st.(updates := st.updates[i :=
                              pu.(conditions := pu.conditions[VALID :=
                                                              Reported(pu.conditions[VALID], issues, warnings)])])
  }

  /** As Progress, and the open update i has gained these errors and warnings. */
  ghost predicate Advance(env: Env, st: CacheState, st': CacheState, i: nat, name: Name,
                          issues: seq<Issue>, warnings: seq<Issue>, cs: seq<Commit>)
  {
    IsOpen(st, i, name) && Progressed(env, Filled(st, i, issues, warnings), st', cs)
  }

  ghost predicate Advanced(env: Env, st: CacheState, st': CacheState, i: nat, name: Name,
                           issues: seq<Issue>, warnings: seq<Issue>, cs: seq<Commit>)
  {
    && IsOpen(st, i, name) && Sound(st') && IsOpen(st', i, name)
    && forall list :: list == cs ==> Advance(env, st, st', i, name, issues, warnings, list)
  }

  lemma ProgressIs(env: Env, st: CacheState, st': CacheState, cs: seq<Commit>)
    requires Sound(st) && Sound(st')
    ensures Progressed(env, st, st', cs) <==> Progress(env, st, st', cs)
  {
  }

  // ----- errors and warnings add up -------------------------------------------------------------

  lemma {:induction false} WithIssuesConcat(dc: DetailedCondition, a: seq<Issue>, b: seq<Issue>)
    ensures WithIssues(dc, a + b) == WithIssues(WithIssues(dc, a), b)
  {
    if b == [] {
      assert a + b == a;
    } else {
      assert (a + b)[..|a + b| - 1] == a + b[..|b| - 1];
      WithIssuesConcat(dc, a, b[..|b| - 1]);
    }
  }

  lemma {:induction false} WithWarningsConcat(dc: DetailedCondition, a: seq<Issue>, b: seq<Issue>)
    ensures WithWarnings(dc, a + b) == WithWarnings(WithWarnings(dc, a), b)
  {
    if b == [] {
      assert a + b == a;
    } else {
      assert (a + b)[..|a + b| - 1] == a + b[..|b| - 1];
      WithWarningsConcat(dc, a, b[..|b| - 1]);
    }
  }

  lemma {:induction false} WarningThenIssues(dc: DetailedCondition, w: Issue, issues: seq<Issue>)
    ensures WithIssues(WithWarning(dc, w.kind, w.reason, ""), issues) ==
            WithWarning(WithIssues(dc, issues), w.kind, w.reason, "")
    ensures WithIssues(dc, issues).kind == dc.kind
  {
    if issues != [] {
      WarningThenIssues(dc, w, issues[..|issues| - 1]);
    }
  }

  lemma {:induction false} WarningsThenIssues(dc: DetailedCondition, warnings: seq<Issue>, issues: seq<Issue>)
    ensures WithIssues(WithWarnings(dc, warnings), issues) == WithWarnings(WithIssues(dc, issues), warnings)
  {
    if warnings != [] {
      var k := |warnings| - 1;
      WarningThenIssues(WithWarnings(dc, warnings[..k]), warnings[k], issues);
      WarningsThenIssues(dc, warnings[..k], issues);
    }
  }

  /** Errors and warnings can be added in turns. */
  lemma ReportedTwice(dc: DetailedCondition, i: seq<Issue>, w: seq<Issue>, i': seq<Issue>, w': seq<Issue>)
    ensures Reported(Reported(dc, i, w), i', w') == Reported(dc, i + i', w + w')
  {
    WarningsThenIssues(WithIssues(dc, i), w, i');
    WithIssuesConcat(dc, i, i');
    WithWarningsConcat(WithIssues(dc, i + i'), w, w');
  }

  lemma ReportedKeepsKind(dc: DetailedCondition, issues: seq<Issue>, warnings: seq<Issue>)
    ensures Reported(dc, issues, warnings).kind == dc.kind
  {
    WarningThenIssues(dc, CYCLE, issues);
    WarningsChangeNothing(WithIssues(dc, issues), warnings);
  }

  // ----- steps --------------------------------------------------------------------------------------

  lemma NoProgress(env: Env, st: CacheState)
    requires Sound(st)
    ensures Progressed(env, st, st, [])
  {
    ProgressIs(env, st, st, []);
  }

  lemma ProgressedTwice(env: Env, st: CacheState, mid: CacheState, st': CacheState, cs: seq<Commit>, cs': seq<Commit>)
    requires Progressed(env, st, mid, cs) && Progressed(env, mid, st', cs')
    ensures Progressed(env, st, st', cs + cs')
  {
    ProgressIs(env, st, mid, cs);
    ProgressIs(env, mid, st', cs');
    ProgressIs(env, st, st', cs + cs');
    ShownAllConcat(env, ViewOf(st), cs, cs');
  }

  /** Filling an open update does not show. */
  lemma FilledIsUnseen(st: CacheState, i: nat, name: Name, issues: seq<Issue>, warnings: seq<Issue>)
    requires Sound(st) && IsOpen(st, i, name)
    ensures var st' := Filled(st, i, issues, warnings);
            Sound(st') && IsOpen(st', i, name) && ViewOf(st') == ViewOf(st)
  {
    ReportedKeepsKind(st.updates[i].conditions[VALID], issues, warnings);
  }

  lemma FilledTwice(st: CacheState, i: nat, name: Name, es: seq<Issue>, ws: seq<Issue>, es': seq<Issue>,
                    ws': seq<Issue>)
    requires IsOpen(st, i, name)
    ensures Filled(Filled(st, i, es, ws), i, es', ws') == Filled(st, i, es + es', ws + ws')
  {
    var dc := st.updates[i].conditions[VALID];
    ReportedTwice(dc, es, ws, es', ws');
    assert st.updates[i].conditions[VALID := Reported(dc, es, ws)][VALID := Reported(dc, es + es', ws + ws')]
        == st.updates[i].conditions[VALID := Reported(dc, es + es', ws + ws')];
  }

  /** An open update stays open while other updates come and go. */
  lemma StaysOpen(env: Env, st: CacheState, st': CacheState, cs: seq<Commit>, i: nat, name: Name)
    requires Progressed(env, st, st', cs) && IsOpen(st, i, name)
    ensures IsOpen(st', i, name)
  {
    ProgressIs(env, st, st', cs);
  }

  lemma FilledStaysOpen(st: CacheState, i: nat, name: Name, es: seq<Issue>, ws: seq<Issue>)
    requires IsOpen(st, i, name)
    ensures IsOpen(Filled(st, i, es, ws), i, name)
  {
    ReportedKeepsKind(st.updates[i].conditions[VALID], es, ws);
  }

  lemma AdvanceIs(env: Env, st: CacheState, st': CacheState, i: nat, name: Name, es: seq<Issue>, ws: seq<Issue>,
                  cs: seq<Commit>)
    ensures Advanced(env, st, st', i, name, es, ws, cs) <==> Advance(env, st, st', i, name, es, ws, cs)
  {
    if Advanced(env, st, st', i, name, es, ws, cs) {
      assert Advance(env, st, st', i, name, es, ws, cs);
    }
    if Advance(env, st, st', i, name, es, ws, cs) {
      FilledStaysOpen(st, i, name, es, ws);
      StaysOpen(env, Filled(st, i, es, ws), st', cs, i, name);
    }
  }

  /** Filling an open update commutes with what happens to the others. */
  lemma FillAcross(env: Env, st: CacheState, st': CacheState, cs: seq<Commit>, i: nat, name: Name, es: seq<Issue>,
                   ws: seq<Issue>)
    requires Progressed(env, st, st', cs) && IsOpen(st, i, name)
    ensures IsOpen(st', i, name) && Progressed(env, Filled(st, i, es, ws), Filled(st', i, es, ws), cs)
  {
    StaysOpen(env, st, st', cs, i, name);
    FilledIsUnseen(st, i, name, es, ws);
    FilledIsUnseen(st', i, name, es, ws);
    ProgressIs(env, st, st', cs);
    ProgressIs(env, Filled(st, i, es, ws), Filled(st', i, es, ws), cs);
  }

  lemma AdvancedNowhere(env: Env, st: CacheState, i: nat, name: Name)
    requires Sound(st) && IsOpen(st, i, name)
    ensures Advanced(env, st, st, i, name, [], [], [])
  {
    FilledWithNothing(st, i, name);
    NoProgress(env, st);
    AdvanceIs(env, st, st, i, name, [], [], []);
  }

  lemma FilledWithNothing(st: CacheState, i: nat, name: Name)
    requires IsOpen(st, i, name)
    ensures Filled(st, i, [], []) == st
  {
    var pu := st.updates[i];
    assert pu.conditions[VALID := pu.conditions[VALID]] == pu.conditions;
    assert st.updates[i := pu] == st.updates;
  }

  lemma ProgressIsAdvance(env: Env, st: CacheState, st': CacheState, i: nat, name: Name, cs: seq<Commit>)
    requires Progressed(env, st, st', cs) && IsOpen(st, i, name)
    ensures Advanced(env, st, st', i, name, [], [], cs)
  {
    FilledWithNothing(st, i, name);
    AdvanceIs(env, st, st', i, name, [], [], cs);
  }

  lemma AdvancedTwice(env: Env, st: CacheState, mid: CacheState, st': CacheState, i: nat, name: Name,
                      es: seq<Issue>, ws: seq<Issue>, cs: seq<Commit>, es': seq<Issue>, ws': seq<Issue>,
                      cs': seq<Commit>)
    requires Sound(st)
    requires Advanced(env, st, mid, i, name, es, ws, cs) && Advanced(env, mid, st', i, name, es', ws', cs')
    ensures Advanced(env, st, st', i, name, es + es', ws + ws', cs + cs')
  {
    AdvanceIs(env, st, mid, i, name, es, ws, cs);
    AdvanceIs(env, mid, st', i, name, es', ws', cs');
    AdvanceIs(env, st, st', i, name, es + es', ws + ws', cs + cs');
    FilledIsUnseen(st, i, name, es, ws);
    FillAcross(env, Filled(st, i, es, ws), mid, cs, i, name, es', ws');
    FilledTwice(st, i, name, es, ws, es', ws');
    ProgressedTwice(env, Filled(st, i, es + es', ws + ws'), Filled(mid, i, es', ws'), st', cs, cs');
  }

  /** As AdvancedTwice, when nothing else was committed. */
  lemma ReportedOn(env: Env, st: CacheState, mid: CacheState, st': CacheState, i: nat, name: Name,
                   es: seq<Issue>, ws: seq<Issue>, es': seq<Issue>, ws': seq<Issue>)
    requires Sound(st)
    requires Advanced(env, st, mid, i, name, es, ws, []) && Advanced(env, mid, st', i, name, es', ws', [])
    ensures Advanced(env, st, st', i, name, es + es', ws + ws', [])
  {
    AdvancedTwice(env, st, mid, st', i, name, es, ws, [], es', ws', []);
    NothingTwice([], []);
  }

  /** As AdvancedTwice, without warnings. */
  lemma WalkedOn(env: Env, st: CacheState, mid: CacheState, st': CacheState, i: nat, name: Name,
                 es: seq<Issue>, cs: seq<Commit>, es': seq<Issue>, cs': seq<Commit>)
    requires Sound(st)
    requires Advanced(env, st, mid, i, name, es, [], cs) && Advanced(env, mid, st', i, name, es', [], cs')
    ensures Advanced(env, st, st', i, name, es + es', [], cs + cs')
  {
    AdvancedTwice(env, st, mid, st', i, name, es, [], cs, es', [], cs');
    NothingTwice([], []);
  }

  lemma NothingTwice(issues: seq<Issue>, cs: seq<Commit>)
    requires issues == [] && cs == []
    ensures issues + issues == [] && cs + cs == []
  {
  }

  /** As AdvancedTwice: first no warnings, then no commits. */
  lemma RoutesAfterIncludes(env: Env, st: CacheState, mid: CacheState, st': CacheState, i: nat, name: Name,
                            es: seq<Issue>, cs: seq<Commit>, es': seq<Issue>, ws: seq<Issue>)
    requires Sound(st)
    requires Advanced(env, st, mid, i, name, es, [], cs) && Advanced(env, mid, st', i, name, es', ws, [])
    ensures Advanced(env, st, st', i, name, es + es', ws, cs)
  {
    AdvancedTwice(env, st, mid, st', i, name, es, [], cs, es', ws, []);
    assert [] + ws == ws && cs + [] == cs;
  }

  /** As AdvancedTwice: warnings alone, and then no more of them. */
  lemma WalkAfterWarnings(env: Env, st: CacheState, mid: CacheState, st': CacheState, i: nat, name: Name,
                          ws: seq<Issue>, es: seq<Issue>, cs: seq<Commit>)
    requires Sound(st)
    requires Advanced(env, st, mid, i, name, [], ws, []) && Advanced(env, mid, st', i, name, es, [], cs)
    ensures Advanced(env, st, st', i, name, es, ws, cs)
  {
    AdvancedTwice(env, st, mid, st', i, name, [], ws, [], es, [], cs);
    assert [] + es == es && ws + [] == ws && [] + cs == cs;
  }

  /** As AdvancedTwice: then errors alone. */
  lemma ErrorsAfterWalk(env: Env, st: CacheState, mid: CacheState, st': CacheState, i: nat, name: Name,
                        es: seq<Issue>, ws: seq<Issue>, cs: seq<Commit>, es': seq<Issue>)
    requires Sound(st)
    requires Advanced(env, st, mid, i, name, es, ws, cs) && Advanced(env, mid, st', i, name, es', [], [])
    ensures Advanced(env, st, st', i, name, es + es', ws, cs)
  {
    AdvancedTwice(env, st, mid, st', i, name, es, ws, cs, es', [], []);
    assert ws + [] == ws && cs + [] == cs;
  }

  lemma ErrorsAfterErrors(env: Env, st: CacheState, mid: CacheState, st': CacheState, i: nat, name: Name,
                          es: seq<Issue>, all: seq<Issue>)
    requires Sound(st) && es <= all
    requires Advanced(env, st, mid, i, name, es, [], []) && Advanced(env, mid, st', i, name, all[|es|..], [], [])
    ensures Advanced(env, st, st', i, name, all, [], [])
  {
    AdvancedTwice(env, st, mid, st', i, name, es, [], [], all[|es|..], [], []);
    NothingTwice([], []);
    assert es + all[|es|..] == all;
  }

  lemma OneError(env: Env, st: CacheState, i: nat, name: Name, issue: Issue)
    requires Sound(st) && IsOpen(st, i, name)
    ensures var dc := WithError(st.updates[i].conditions[VALID], issue.kind, issue.reason, "");
            Advanced(env, st, WithCondition(st, i, dc), i, name, [issue], [], [])
  {
    var dc := st.updates[i].conditions[VALID];
    assert Reported(dc, [issue], []) == WithError(dc, issue.kind, issue.reason, "") by {
      assert [issue][..0] == [];
      assert WithIssues(dc, []) == dc;
    }
    FilledIsUnseen(st, i, name, [issue], []);
    NoProgress(env, Filled(st, i, [issue], []));
    AdvanceIs(env, st, Filled(st, i, [issue], []), i, name, [issue], [], []);
  }

  lemma OneWarning(env: Env, st: CacheState, i: nat, name: Name, w: Issue)
    requires Sound(st) && IsOpen(st, i, name)
    ensures var dc := WithWarning(st.updates[i].conditions[VALID], w.kind, w.reason, "");
            Advanced(env, st, WithCondition(st, i, dc), i, name, [], [w], [])
  {
    var dc := st.updates[i].conditions[VALID];
    assert Reported(dc, [], [w]) == WithWarning(dc, w.kind, w.reason, "") by {
      assert [w][..0] == [];
      assert WithWarnings(dc, []) == dc;
    }
    FilledIsUnseen(st, i, name, [], [w]);
    NoProgress(env, Filled(st, i, [], [w]));
    AdvanceIs(env, st, Filled(st, i, [], [w]), i, name, [], [w], []);
  }

  // ----- an update from opening to commit ---------------------------------------------------------------

  ghost function Begun(st: CacheState, name: Name, generation: int, time: int): (st': CacheState)
  {
    WithCondition(Opened(st, name, generation, time), |st.updates|, NewCondition(VALID, generation))
  }

  lemma BegunIsOpen(env: Env, st: CacheState, name: Name, generation: int, time: int)
    requires Sound(st)
    ensures Progressed(env, st, Begun(st, name, generation, time), [])
    ensures IsOpen(Begun(st, name, generation, time), |st.updates|, name)
    ensures Begun(st, name, generation, time).updates[|st.updates|].conditions[VALID] == NewCondition(VALID, generation)
  {
    ProgressIs(env, st, Begun(st, name, generation, time), []);
  }

  /** Committing an open update is one commit to the view. */
  lemma CommitShows(st: CacheState, i: nat, name: Name)
    requires Sound(st) && IsOpen(st, i, name)
    ensures CommitDefined(st, i) && Sound(Committed(st, i))
    ensures ViewOf(Committed(st, i)) == Shown(ViewOf(st), name, st.updates[i].conditions[VALID])
  {
  }

  /** A whole update: opened, filled while others come and go, committed. */
  lemma WholeUpdate(env: Env, st: CacheState, done: CacheState, name: Name, time: int,
                    es: seq<Issue>, ws: seq<Issue>, cs: seq<Commit>)
    requires Sound(st) && name in env.proxies
    requires Advanced(env, Begun(st, name, env.proxies[name].generation, time), done, |st.updates|, name, es, ws, cs)
    ensures CommitDefined(done, |st.updates|)
    ensures Progressed(env, st, Committed(done, |st.updates|), cs + [Commit(name, es, ws)])
  {
    var i, c := |st.updates|, Commit(name, es, ws);
    var begun := Begun(st, name, env.proxies[name].generation, time);
    BegunIsOpen(env, st, name, env.proxies[name].generation, time);
    AdvanceIs(env, begun, done, i, name, es, ws, cs);
    FilledIsUnseen(begun, i, name, es, ws);
    ProgressIs(env, Filled(begun, i, es, ws), done, cs);
    assert done.updates[i] == Filled(begun, i, es, ws).updates[i];
    ProgressIs(env, st, begun, []);
    CommitAfter(env, st, begun, Filled(begun, i, es, ws), done, c, cs);
  }

  lemma CommitAfter(env: Env, st: CacheState, begun: CacheState, filled: CacheState, done: CacheState, c: Commit,
                    cs: seq<Commit>)
    requires Sound(st) && Sound(begun) && Sound(filled) && Sound(done) && c.name in env.proxies
    requires Progress(env, st, begun, []) && ViewOf(filled) == ViewOf(begun)
    requires filled.committed == begun.committed && |filled.updates| == |begun.updates| == |st.updates| + 1
    requires st.updates <= filled.updates && Progress(env, filled, done, cs)
    requires IsOpen(done, |st.updates|, c.name) && done.updates[|st.updates|].conditions[VALID] == ConditionOf(env, c)
    ensures CommitDefined(done, |st.updates|)
    ensures Progressed(env, st, Committed(done, |st.updates|), cs + [c])
  {
    CommitShows(done, |st.updates|, c.name);
    ShownSnoc(env, ViewOf(st), cs, c);
    CommitIsNew(st, begun, filled, done);
    ProgressIs(env, st, Committed(done, |st.updates|), cs + [c]);
  }

  lemma CommitIsNew(st: CacheState, begun: CacheState, filled: CacheState, done: CacheState)
    requires |st.updates| < |done.updates| && CommitDefined(done, |st.updates|) && |st.updates| <= |filled.updates|
    requires OnlyNewCommitted(st, begun) && filled.committed == begun.committed && OnlyNewCommitted(filled, done)
    ensures OnlyNewCommitted(st, Committed(done, |st.updates|))
  {
  }

  lemma ShownSnoc(env: Env, view: View, cs: seq<Commit>, c: Commit)
    requires ForProxies(env, cs) && c.name in env.proxies
    ensures ForProxies(env, cs + [c])
    ensures ShownAll(env, view, cs + [c]) == Shown(ShownAll(env, view, cs), c.name, ConditionOf(env, c))
  {
    assert (cs + [c])[..|cs + [c]| - 1] == cs;
  }
}
