/** The condition variable on which xDS streams wait for a new table
    (internal/sesame/cond.go). A mutex makes Register and Notify atomic steps. */
module Cond {
  import opened Text

  /** A waiter; `id` stands for the channel that was registered. */
  datatype Waiter = Waiter(id: nat, hints: seq<string>)

  /** One send: `value` put into the channel of registration `id`. */
  datatype Send = Send(id: nat, value: nat)

  datatype State = State(waiters: seq<Waiter>, last: nat, sent: seq<Send>)

  ghost predicate Intersects(left: seq<string>, right: seq<string>)
  {
    exists i, j :: 0 <= i < |left| && 0 <= j < |right| && left[i] == right[j]
  }

  method Intersection(left: seq<string>, right: seq<string>) returns (b: bool)
    ensures b <==> Intersects(left, right)
  {
    for i := 0 to |left|
      invariant forall k, j :: 0 <= k < i && 0 <= j < |right| ==> left[k] != right[j]
    {
      for j := 0 to |right|
        invariant forall l :: 0 <= l < j ==> left[i] != right[l]
      {
        if left[i] == right[j] {
          return true;
        }
      }
    }
    return false;
  }

  /** A notification wakes a waiter: it has no hints, or one that the waiter has too. */
  ghost predicate Wakes(hints: seq<string>, waiterHints: seq<string>)
  {
    hints == [] || Intersects(hints, waiterHints)
  }

  ghost function Registered(st: State, id: nat, last: int, hints: seq<string>): (st': State)
  {
    if last < st.last then st.(sent := st.sent + [Send(id, st.last)])
    else st.(waiters := st.waiters + [Waiter(id, hints)])
  }

  ghost function Kept(ws: seq<Waiter>, hints: seq<string>): (kept: seq<Waiter>)
  {
    if ws == [] then []
    else
      var w := ws[|ws| - 1];
      Kept(ws[..|ws| - 1], hints) + if Wakes(hints, w.hints) then [] else [w]
  }

  ghost function Woken(ws: seq<Waiter>, hints: seq<string>, value: nat): (sends: seq<Send>)
  {
    if ws == [] then []
    else
      var w := ws[|ws| - 1];
      Woken(ws[..|ws| - 1], hints, value) + if Wakes(hints, w.hints) then [Send(w.id, value)] else []
  }

  ghost function Notified(st: State, hints: seq<string>): (st': State)
  {
    State(Kept(st.waiters, hints), st.last + 1, st.sent + Woken(st.waiters, hints, st.last + 1))
  }

  lemma NotifyOneMore(ws: seq<Waiter>, i: nat, hints: seq<string>, value: nat)
    requires i < |ws|
    ensures Kept(ws[..i + 1], hints) ==
            if Wakes(hints, ws[i].hints) then Kept(ws[..i], hints) else Kept(ws[..i], hints) + [ws[i]]
    ensures Woken(ws[..i + 1], hints, value) ==
            if Wakes(hints, ws[i].hints) then Woken(ws[..i], hints, value) + [Send(ws[i].id, value)]
            else Woken(ws[..i], hints, value)
  {
    assert ws[..i + 1][..i] == ws[..i];
  }

  class Cond {
    var waiters: seq<Waiter>
    var last: nat
    var sent: seq<Send>

    ghost function Now(): (st: State)
      reads this
    {
      State(waiters, last, sent)
    }

    constructor ()
      ensures Now() == State([], 0, [])
    {
      waiters, last, sent := [], 0, [];
    }

    /** last is the caller's count; a caller that is behind is served at once. */
    method Register(id: nat, last: int, hints: seq<string>)
      modifies this
      ensures Now() == Registered(old(Now()), id, last, hints)
    {
      if last < this.last {
        sent := sent + [Send(id, this.last)];
        return;
      }
      waiters := waiters + [Waiter(id, hints)];
    }

    /** One waiter of a notification: it is sent to, or it waits on. */
    method NotifyOne(waiter: Waiter, hints: seq<string>)
      modifies this`waiters, this`sent
      ensures if Wakes(hints, waiter.hints) then waiters == old(waiters) && sent == old(sent) + [Send(waiter.id, last)]
              else waiters == old(waiters) + [waiter] && sent == old(sent)
    {
      if |hints| == 0 {
        sent := sent + [Send(waiter.id, last)];
        return;
      }
      var both := Intersection(hints, waiter.hints);
      if both {
        sent := sent + [Send(waiter.id, last)];
        return;
      }
      waiters := waiters + [waiter];
    }

    method Notify(hints: seq<string>)
      modifies this
      ensures Now() == Notified(old(Now()), hints)
    {
      last := last + 1;
      var notify := waiters;
      waiters := [];
      ghost var before := sent;
      for i := 0 to |notify|
        invariant waiters == Kept(notify[..i], hints)
        invariant sent == before + Woken(notify[..i], hints, last)
        invariant last == old(last) + 1
      {
        NotifyOneMore(notify, i, hints, last);
        Regroup(before, Woken(notify[..i], hints, last), [Send(notify[i].id, last)]);
        NotifyOne(notify[i], hints);
      }
      assert notify[..|notify|] == notify;
    }
  }

  // ----- runs ------------------------------------------------------------------------------

  datatype Op = Register(last: int, hints: seq<string>) | Notify(hints: seq<string>)

  ghost function Step(st: State, id: nat, op: Op): (st': State)
  {
    match op
    case Register(last, hints) => Registered(st, id, last, hints)
    case Notify(hints) => Notified(st, hints)
  }

  /** The state after a trace of operations, from a new Cond. A registration is known by
      its position in the trace. */
  ghost function Exec(trace: seq<Op>): (st: State)
  {
    if trace == [] then State([], 0, [])
    else
      var n := |trace| - 1;
      Step(Exec(trace[..n]), n, trace[n])
  }

  /** How many notifications the trace has. */
  function Count(trace: seq<Op>): (n: nat)
  {
    if trace == [] then 0
    else Count(trace[..|trace| - 1]) + if trace[|trace| - 1].Notify? then 1 else 0
  }

  /** The registration at i is served when it is made. */
  predicate Behind(trace: seq<Op>, i: nat)
    requires i < |trace| && trace[i].Register?
  {
    trace[i].last < Count(trace[..i])
  }

  /** The operation at j is a notification for the registration at i. */
  ghost predicate WakesAt(trace: seq<Op>, i: nat, j: nat)
    requires i < |trace| && trace[i].Register?
  {
    i < j < |trace| && trace[j].Notify? && Wakes(trace[j].hints, trace[i].hints)
  }

  /** The registration at i has not been served in the trace. */
  ghost predicate StillWaiting(trace: seq<Op>, i: nat)
    requires i < |trace| && trace[i].Register?
  {
    !Behind(trace, i) && forall j :: i < j < |trace| ==> !WakesAt(trace, i, j)
  }

  /** It was served at position j, which is i itself if the caller was behind and
      otherwise the first notification for it. */
  ghost predicate ServedAt(trace: seq<Op>, i: nat, j: nat)
    requires i < |trace| && trace[i].Register?
  {
    if Behind(trace, i) then j == i
    else WakesAt(trace, i, j) && forall k :: i < k < j ==> !WakesAt(trace, i, k)
  }

  ghost function SentTo(sent: seq<Send>, id: nat): (values: seq<nat>)
  {
    if sent == [] then []
    else SentTo(sent[..|sent| - 1], id) + if sent[|sent| - 1].id == id then [sent[|sent| - 1].value] else []
  }

  lemma {:induction false} SentToConcat(a: seq<Send>, b: seq<Send>, id: nat)
    ensures SentTo(a + b, id) == SentTo(a, id) + SentTo(b, id)
  {
    if b == [] {
      assert a + b == a;
    } else {
      assert (a + b)[..|a + b| - 1] == a + b[..|b| - 1];
      SentToConcat(a, b[..|b| - 1], id);
    }
  }

  /** What the trace says about registration i is what happened to it. */
  ghost predicate Exact(trace: seq<Op>, st: State, i: nat)
    requires i < |trace| && trace[i].Register?
  {
    if StillWaiting(trace, i) then Waiter(i, trace[i].hints) in st.waiters && SentTo(st.sent, i) == []
    else exists j: nat :: j < |trace| && ServedAt(trace, i, j) && SentTo(st.sent, i) == [Count(trace[..j + 1])]
  }

  /** The waiters are registrations of the trace that still wait, one entry for each. */
  ghost predicate WaitersOk(trace: seq<Op>, ws: seq<Waiter>)
  {
    && (forall k :: 0 <= k < |ws| ==>
          && ws[k].id < |trace| && trace[ws[k].id].Register?
          && ws[k].hints == trace[ws[k].id].hints && StillWaiting(trace, ws[k].id))
    && (forall k, l :: 0 <= k < l < |ws| ==> ws[k].id != ws[l].id)
  }

  ghost predicate SendsOk(trace: seq<Op>, sent: seq<Send>)
  {
    forall k :: 0 <= k < |sent| ==> sent[k].id < |trace| && trace[sent[k].id].Register?
  }

  lemma {:induction false} KeptWaiters(ws: seq<Waiter>, hints: seq<string>)
    ensures forall k :: 0 <= k < |Kept(ws, hints)| ==>
              Kept(ws, hints)[k] in ws && !Wakes(hints, Kept(ws, hints)[k].hints)
    ensures forall w :: w in ws && !Wakes(hints, w.hints) ==> w in Kept(ws, hints)
  {
    if ws != [] {
      KeptWaiters(ws[..|ws| - 1], hints);
      assert ws == ws[..|ws| - 1] + [ws[|ws| - 1]];
    }
  }

  lemma {:induction false} KeptDistinct(ws: seq<Waiter>, hints: seq<string>)
    requires forall k, l :: 0 <= k < l < |ws| ==> ws[k].id != ws[l].id
    ensures forall k, l :: 0 <= k < l < |Kept(ws, hints)| ==> Kept(ws, hints)[k].id != Kept(ws, hints)[l].id
  {
    if ws != [] {
      var front := ws[..|ws| - 1];
      KeptDistinct(front, hints);
      KeptWaiters(front, hints);
    }
  }

  ghost predicate WakesId(ws: seq<Waiter>, hints: seq<string>, id: nat)
  {
    exists k :: 0 <= k < |ws| && ws[k].id == id && Wakes(hints, ws[k].hints)
  }

  lemma SentToOne(send: Send, id: nat)
    ensures SentTo([send], id) == if send.id == id then [send.value] else []
  {
    assert [send][..0] == [];
    assert SentTo([], id) == [];
  }

  lemma WakesIdSnoc(front: seq<Waiter>, w: Waiter, hints: seq<string>, id: nat)
    ensures WakesId(front + [w], hints, id) <==> WakesId(front, hints, id) || (w.id == id && Wakes(hints, w.hints))
  {
    var ws := front + [w];
    assert ws[|front|] == w;
    if k :| 0 <= k < |front| && front[k].id == id && Wakes(hints, front[k].hints) {
      assert ws[k] == front[k];
    }
  }

  lemma SentToNext(sent: seq<Send>, send: Send, id: nat)
    ensures SentTo(sent + [send], id) == SentTo(sent, id) + if send.id == id then [send.value] else []
  {
    SentToConcat(sent, [send], id);
    SentToOne(send, id);
  }

  lemma WakesOnce(ws: seq<Waiter>, hints: seq<string>)
    requires ws != [] && forall k, l :: 0 <= k < l < |ws| ==> ws[k].id != ws[l].id
    ensures !WakesId(ws[..|ws| - 1], hints, ws[|ws| - 1].id)
  {
  }

  /** A notification sends to each waiter that it wakes, once, and to nobody else. */
  lemma {:induction false} WokenSends(ws: seq<Waiter>, hints: seq<string>, value: nat, id: nat)
    requires forall k, l :: 0 <= k < l < |ws| ==> ws[k].id != ws[l].id
    ensures SentTo(Woken(ws, hints, value), id) == if WakesId(ws, hints, id) then [value] else []
  {
    if ws != [] {
      var n := |ws| - 1;
      var front, w := ws[..n], ws[n];
      WokenSends(front, hints, value, id);
      assert ws == front + [w];
      WakesIdSnoc(front, w, hints, id);
      WakesOnce(ws, hints);
      OneMoreSend(Woken(front, hints, value), Wakes(hints, w.hints), Send(w.id, value), id);
    }
  }

  lemma OneMoreSend(sent: seq<Send>, sends: bool, send: Send, id: nat)
    ensures SentTo(sent + if sends then [send] else [], id) ==
            SentTo(sent, id) + if sends && send.id == id then [send.value] else []
  {
    SentToNext(sent, send, id);
    assert sent + [] == sent;
  }

  lemma {:induction false} WokenOrigin(ws: seq<Waiter>, hints: seq<string>, value: nat, send: Send)
    requires send in Woken(ws, hints, value)
    ensures exists l :: 0 <= l < |ws| && ws[l].id == send.id
  {
    var front := ws[..|ws| - 1];
    if send in Woken(front, hints, value) {
      WokenOrigin(front, hints, value, send);
      var l :| 0 <= l < |front| && front[l].id == send.id;
      assert ws[l] == front[l];
    } else {
      assert ws[|ws| - 1].id == send.id;
    }
  }

  lemma {:induction false} SentToNobody(sent: seq<Send>, id: nat)
    requires forall k :: 0 <= k < |sent| ==> sent[k].id != id
    ensures SentTo(sent, id) == []
  {
    if sent != [] {
      SentToNobody(sent[..|sent| - 1], id);
    }
  }

  // ----- one more operation ---------------------------------------------------------------------

  /** What the trace says about an earlier registration after one more operation. */
  lemma OneMoreWaiting(pre: seq<Op>, op: Op, i: nat)
    requires i < |pre| && pre[i].Register?
    ensures var trace := pre + [op];
            && (StillWaiting(trace, i) <==> StillWaiting(pre, i) && !WakesAt(trace, i, |pre|))
            && (StillWaiting(pre, i) && WakesAt(trace, i, |pre|) ==> ServedAt(trace, i, |pre|))
  {
    var trace := pre + [op];
    assert trace[..i] == pre[..i];
    assert forall j :: i < j < |pre| ==> (WakesAt(trace, i, j) <==> WakesAt(pre, i, j));
  }

  lemma OneMoreServed(pre: seq<Op>, op: Op, i: nat, j: nat)
    requires i < |pre| && pre[i].Register? && j < |pre| && ServedAt(pre, i, j)
    ensures var trace := pre + [op];
            ServedAt(trace, i, j) && Count(trace[..j + 1]) == Count(pre[..j + 1])
  {
    var trace := pre + [op];
    assert trace[..i] == pre[..i];
    assert forall k :: i < k < |pre| ==> (WakesAt(trace, i, k) <==> WakesAt(pre, i, k));
    assert trace[..j + 1] == pre[..j + 1];
  }

  /** A registration that was served stays served, if no more is sent to it. */
  lemma StaysExact(pre: seq<Op>, op: Op, st: State, after: State, i: nat)
    requires i < |pre| && pre[i].Register? && !StillWaiting(pre, i)
    requires Exact(pre, st, i) && SentTo(after.sent, i) == SentTo(st.sent, i)
    ensures Exact(pre + [op], after, i)
  {
    var trace := pre + [op];
    OneMoreWaiting(pre, op, i);
    var j: nat :| j < |pre| && ServedAt(pre, i, j) && SentTo(st.sent, i) == [Count(pre[..j + 1])];
    OneMoreServed(pre, op, i, j);
    assert ServedAt(trace, i, j) && SentTo(after.sent, i) == [Count(trace[..j + 1])];
  }

  /** Everything that a run keeps. */
  ghost predicate Invariant(trace: seq<Op>, st: State)
  {
    && st.last == Count(trace)
    && WaitersOk(trace, st.waiters)
    && SendsOk(trace, st.sent)
    && forall i: nat :: i < |trace| && trace[i].Register? ==> Exact(trace, st, i)
  }

  lemma SnocFacts(pre: seq<Op>, op: Op)
    ensures var trace := pre + [op];
            && trace[..|pre|] == pre && trace[..|trace|] == trace
            && Count(trace) == Count(pre) + (if op.Notify? then 1 else 0)
            && Exec(trace) == Step(Exec(pre), |pre|, op)
  {
    assert (pre + [op])[..|pre|] == pre;
  }

  lemma RegisterExact(pre: seq<Op>, st: State, last: int, hints: seq<string>, i: nat)
    requires Invariant(pre, st) && i <= |pre| && (i < |pre| ==> pre[i].Register?)
    ensures Exact(pre + [Register(last, hints)], Registered(st, |pre|, last, hints), i)
  {
    var op := Register(last, hints);
    var trace, n := pre + [op], |pre|;
    var after := Registered(st, n, last, hints);
    SnocFacts(pre, op);
    if last < st.last {
      SentToConcat(st.sent, [Send(n, st.last)], i);
      SentToOne(Send(n, st.last), i);
    }
    if i == n {
      SentToNobody(st.sent, n);
      if last < st.last {
        assert ServedAt(trace, n, n);
        assert SentTo(after.sent, n) == [Count(trace[..n + 1])];
      }
    } else {
      OneMoreWaiting(pre, op, i);
      assert Exact(pre, st, i);
      if !StillWaiting(pre, i) {
        StaysExact(pre, op, st, after, i);
      }
    }
  }

  lemma RegisterWaiters(pre: seq<Op>, st: State, last: int, hints: seq<string>)
    requires Invariant(pre, st)
    ensures WaitersOk(pre + [Register(last, hints)], Registered(st, |pre|, last, hints).waiters)
    ensures SendsOk(pre + [Register(last, hints)], Registered(st, |pre|, last, hints).sent)
  {
    var op := Register(last, hints);
    WaitersStay(pre, op, st.waiters);
    if last < st.last {
      SendsGrow(pre, op, st.sent, Send(|pre|, st.last));
    } else {
      WaitersGrow(pre, op, st.waiters, Waiter(|pre|, hints));
      assert SendsOk(pre + [op], st.sent);
    }
  }

  lemma WaitersStay(pre: seq<Op>, op: Op, ws: seq<Waiter>)
    requires WaitersOk(pre, ws) && op.Register?
    ensures WaitersOk(pre + [op], ws)
  {
    forall k | 0 <= k < |ws|
      ensures StillWaiting(pre + [op], ws[k].id)
    {
      OneMoreWaiting(pre, op, ws[k].id);
    }
  }

  lemma WaitersGrow(pre: seq<Op>, op: Op, ws: seq<Waiter>, w: Waiter)
    requires WaitersOk(pre, ws) && WaitersOk(pre + [op], ws) && op.Register? && op.last >= Count(pre)
    requires w == Waiter(|pre|, op.hints)
    ensures WaitersOk(pre + [op], ws + [w])
  {
    var trace := pre + [op];
    assert trace[..|pre|] == pre && trace[|pre|] == op;
    assert StillWaiting(trace, |pre|);
  }

  lemma SendsGrow(pre: seq<Op>, op: Op, sent: seq<Send>, send: Send)
    requires SendsOk(pre, sent) && op.Register? && send.id == |pre|
    ensures SendsOk(pre + [op], sent + [send])
  {
  }

  lemma SendsConcat(pre: seq<Op>, op: Op, a: seq<Send>, b: seq<Send>)
    requires SendsOk(pre, a) && SendsOk(pre, b)
    ensures SendsOk(pre + [op], a + b)
  {
  }

  lemma NotifySentTo(st: State, hints: seq<string>, i: nat)
    requires forall k, l :: 0 <= k < l < |st.waiters| ==> st.waiters[k].id != st.waiters[l].id
    ensures SentTo(Notified(st, hints).sent, i) ==
            SentTo(st.sent, i) + if WakesId(st.waiters, hints, i) then [st.last + 1] else []
  {
    SentToConcat(st.sent, Woken(st.waiters, hints, st.last + 1), i);
    WokenSends(st.waiters, hints, st.last + 1, i);
  }

  lemma NotifyExact(pre: seq<Op>, st: State, hints: seq<string>, i: nat)
    requires Invariant(pre, st) && i < |pre| && pre[i].Register?
    ensures Exact(pre + [Notify(hints)], Notified(st, hints), i)
  {
    NotifySentTo(st, hints, i);
    assert Exact(pre, st, i);
    if StillWaiting(pre, i) {
      NotifyWaiting(pre, st, hints, i);
    } else {
      assert !WakesId(st.waiters, hints, i);
      StaysExact(pre, Notify(hints), st, Notified(st, hints), i);
    }
  }

  lemma NotifyWaiting(pre: seq<Op>, st: State, hints: seq<string>, i: nat)
    requires st.last == Count(pre) && WaitersOk(pre, st.waiters)
    requires i < |pre| && pre[i].Register? && StillWaiting(pre, i) && Exact(pre, st, i)
    ensures Exact(pre + [Notify(hints)], Notified(st, hints), i)
  {
    var op, after := Notify(hints), Notified(st, hints);
    NotifySentTo(st, hints, i);
    WokenIfWaiting(pre, st, hints, i);
    if Wakes(hints, pre[i].hints) {
      NowServed(pre, op, after, i);
    } else {
      KeptWaiters(st.waiters, hints);
      StillWaits(pre, op, after, i);
    }
  }

  lemma NowServed(pre: seq<Op>, op: Op, after: State, i: nat)
    requires i < |pre| && pre[i].Register? && StillWaiting(pre, i)
    requires op.Notify? && Wakes(op.hints, pre[i].hints) && SentTo(after.sent, i) == [Count(pre) + 1]
    ensures Exact(pre + [op], after, i)
  {
    var trace := pre + [op];
    OneMoreWaiting(pre, op, i);
    CountSnoc(pre, op);
    assert trace[..|pre| + 1] == trace;
    assert WakesAt(trace, i, |pre|) && ServedAt(trace, i, |pre|);
  }

  lemma StillWaits(pre: seq<Op>, op: Op, after: State, i: nat)
    requires i < |pre| && pre[i].Register? && StillWaiting(pre, i)
    requires op.Notify? && !Wakes(op.hints, pre[i].hints)
    requires SentTo(after.sent, i) == [] && Waiter(i, pre[i].hints) in after.waiters
    ensures Exact(pre + [op], after, i)
  {
    OneMoreWaiting(pre, op, i);
  }

  lemma WokenIfWaiting(pre: seq<Op>, st: State, hints: seq<string>, i: nat)
    requires WaitersOk(pre, st.waiters) && i < |pre| && pre[i].Register?
    requires Waiter(i, pre[i].hints) in st.waiters
    ensures WakesId(st.waiters, hints, i) <==> Wakes(hints, pre[i].hints)
  {
    var k :| 0 <= k < |st.waiters| && st.waiters[k] == Waiter(i, pre[i].hints);
    assert st.waiters[k].id == i;
  }

  lemma NotifyWaiters(pre: seq<Op>, st: State, hints: seq<string>)
    requires Invariant(pre, st)
    ensures WaitersOk(pre + [Notify(hints)], Notified(st, hints).waiters)
  {
    var op := Notify(hints);
    var trace, kept := pre + [op], Kept(st.waiters, hints);
    KeptDistinct(st.waiters, hints);
    forall k | 0 <= k < |kept|
      ensures && kept[k].id < |trace| && trace[kept[k].id].Register?
              && kept[k].hints == trace[kept[k].id].hints && StillWaiting(trace, kept[k].id)
    {
      KeptWaiters(st.waiters, hints);
      var l :| 0 <= l < |st.waiters| && st.waiters[l] == kept[k];
      OneMoreWaiting(pre, op, kept[k].id);
    }
  }

  lemma NotifySends(pre: seq<Op>, st: State, hints: seq<string>)
    requires WaitersOk(pre, st.waiters) && SendsOk(pre, st.sent)
    ensures SendsOk(pre + [Notify(hints)], Notified(st, hints).sent)
  {
    var sends := Woken(st.waiters, hints, st.last + 1);
    WokenSendsOk(pre, st.waiters, hints, st.last + 1);
    SendsConcat(pre, Notify(hints), st.sent, sends);
  }

  lemma WokenSendsOk(pre: seq<Op>, ws: seq<Waiter>, hints: seq<string>, value: nat)
    requires WaitersOk(pre, ws)
    ensures SendsOk(pre, Woken(ws, hints, value))
  {
    var sends := Woken(ws, hints, value);
    forall k | 0 <= k < |sends|
      ensures sends[k].id < |pre| && pre[sends[k].id].Register?
    {
      WokenOrigin(ws, hints, value, sends[k]);
    }
  }

  /** Over every interleaving of registrations and notifications. */
  lemma {:induction false} RunKeepsInvariant(trace: seq<Op>)
    ensures Invariant(trace, Exec(trace))
  {
    if trace != [] {
      var n := |trace| - 1;
      var pre, op := trace[..n], trace[n];
      assert trace == pre + [op];
      RunKeepsInvariant(pre);
      SnocFacts(pre, op);
      var st := Exec(pre);
      match op {
        case Register(last, hints) =>
          RegisterWaiters(pre, st, last, hints);
          forall i: nat | i < |trace| && trace[i].Register?
            ensures Exact(trace, Exec(trace), i)
          {
            RegisterExact(pre, st, last, hints, i);
          }
        case Notify(hints) =>
          NotifyWaiters(pre, st, hints);
          NotifySends(pre, st, hints);
          forall i: nat | i < |trace| && trace[i].Register?
            ensures Exact(trace, Exec(trace), i)
          {
            NotifyExact(pre, st, hints, i);
          }
      }
    }
  }

  // ----- what callers rely on ----------------------------------------------------------------------

  lemma {:induction false} CountGrows(trace: seq<Op>, i: nat, j: nat)
    requires i <= j <= |trace|
    ensures Count(trace[..i]) <= Count(trace[..j])
    ensures i < j && trace[j - 1].Notify? ==> Count(trace[..i]) < Count(trace[..j])
    decreases j
  {
    if i < j {
      CountGrows(trace, i, j - 1);
      assert trace[..j][..j - 1] == trace[..j - 1];
    }
  }

  /** No lost wake-up: a registration is sent to at most once; it is not sent to exactly
      while its caller is not behind and every notification since has hints, none of them
      its own; and what it is sent exceeds a `last` that was not ahead of the counter. */
  lemma NoLostWakeUps(trace: seq<Op>, i: nat)
    requires i < |trace| && trace[i].Register?
    ensures var sent := SentTo(Exec(trace).sent, i);
            && |sent| <= 1
            && (sent == [] <==>
                  && trace[i].last >= Count(trace[..i])
                  && forall j :: i < j < |trace| && trace[j].Notify? ==>
                       trace[j].hints != [] && !Intersects(trace[j].hints, trace[i].hints))
            && (sent != [] && trace[i].last <= Count(trace[..i]) ==> sent[0] > trace[i].last)
  {
    RunIsExact(trace, i);
    WaitingMeans(trace, i);
    if !StillWaiting(trace, i) {
      ServedMeans(trace, Exec(trace), i);
    }
  }

  lemma WaitingMeans(trace: seq<Op>, i: nat)
    requires i < |trace| && trace[i].Register?
    ensures StillWaiting(trace, i) <==>
            && trace[i].last >= Count(trace[..i])
            && forall j :: i < j < |trace| && trace[j].Notify? ==>
                 trace[j].hints != [] && !Intersects(trace[j].hints, trace[i].hints)
  {
    if StillWaiting(trace, i) {
      forall j | i < j < |trace| && trace[j].Notify?
        ensures trace[j].hints != [] && !Intersects(trace[j].hints, trace[i].hints)
      {
        assert !WakesAt(trace, i, j);
      }
    }
  }

  lemma ServedMeans(trace: seq<Op>, st: State, i: nat)
    requires i < |trace| && trace[i].Register? && !StillWaiting(trace, i) && Exact(trace, st, i)
    ensures |SentTo(st.sent, i)| == 1
    ensures trace[i].last <= Count(trace[..i]) ==> SentTo(st.sent, i)[0] > trace[i].last
  {
    var j: nat :| j < |trace| && ServedAt(trace, i, j) && SentTo(st.sent, i) == [Count(trace[..j + 1])];
    ServedExceeds(trace, i, j);
  }

  lemma ServedExceeds(trace: seq<Op>, i: nat, j: nat)
    requires i < |trace| && trace[i].Register? && j < |trace| && ServedAt(trace, i, j)
    ensures trace[i].last <= Count(trace[..i]) ==> Count(trace[..j + 1]) > trace[i].last
  {
    CountGrows(trace, i, j + 1);
  }

  /** The bound on `last` is needed: with a caller that is ahead of the counter the very
      next notification delivers a count that does not exceed it. */
  lemma AheadIsNotExceeded(trace: seq<Op>, i: nat)
    requires |trace| == i + 2 && trace[i].Register? && trace[i + 1] == Notify([])
    requires trace[i].last > Count(trace[..i])
    ensures SentTo(Exec(trace).sent, i) == [Count(trace[..i]) + 1]
    ensures Count(trace[..i]) + 1 <= trace[i].last
  {
    RunIsExact(trace, i);
    NextServes(trace, Exec(trace), i);
    CountLastTwo(trace, i);
  }

  lemma RunIsExact(trace: seq<Op>, i: nat)
    requires i < |trace| && trace[i].Register?
    ensures Exact(trace, Exec(trace), i)
  {
    RunKeepsInvariant(trace);
  }

  lemma CountLastTwo(trace: seq<Op>, i: nat)
    requires |trace| == i + 2 && trace[i].Register? && trace[i + 1].Notify?
    ensures Count(trace) == Count(trace[..i]) + 1
  {
    var front := trace[..i + 1];
    assert front[..i] == trace[..i] && front[i] == trace[i];
  }

  lemma CountSnoc(pre: seq<Op>, op: Op)
    ensures Count(pre + [op]) == Count(pre) + if op.Notify? then 1 else 0
  {
    assert (pre + [op])[..|pre + [op]| - 1] == pre;
  }

  /** A notification without hints right after a registration that waits. */
  lemma NextServes(trace: seq<Op>, st: State, i: nat)
    requires |trace| == i + 2 && trace[i].Register? && !Behind(trace, i) && trace[i + 1] == Notify([])
    requires Exact(trace, st, i)
    ensures SentTo(st.sent, i) == [Count(trace)]
  {
    assert WakesAt(trace, i, i + 1);
    assert trace[..i + 2] == trace;
  }
}
