/** The rebuild timer of the event handler (internal/sesame/handler.go): a state
    machine over the steps of its loop, with time as a number. */
module Holdoff {
  import opened Text

  datatype Config = Config(delay: nat, maxDelay: nat)

  /** One rebuild: when it started and ended, when the one before it had ended, and the
      arrival times of the events that it drained. */
  datatype Rebuild = Rebuild(start: nat, finish: nat, since: nat, batch: seq<nat>)

  /** `pending` is the time at which the running timer is due. The fields from `arrivals`
      on record what has happened: arrival times of the outstanding events and of all
      accepted events, the number of rejected events, the rebuilds, and the sequence
      numbers that a watcher has received. */
  datatype State = State(
    now: nat,
    outstanding: nat,
    pending: Option<nat>,
    lastRebuild: nat,
    sequence: nat,
    channel: Option<nat>,
    arrivals: seq<nat>,
    accepted: seq<nat>,
    rejected: nat,
    rebuilds: seq<Rebuild>,
    received: seq<nat>)

  /** Nothing has happened yet; the time of the last rebuild is seeded with the clock. */
  function Start(now: nat): (st: State)
  {
    State(now, 0, None, now, 0, None, [], [], 0, [], [])
  }

  datatype Step =
    | Accept
    | Reject
    | Fire(finish: nat)
    | Wait(until: nat)
    | Receive

  /** incSequence: count, and send unless the channel, which holds one value, is full. */
  function Counted(st: State): (st': State)
  {
    st.(sequence := st.sequence + 1,
        channel := if st.channel.None? then Some(st.sequence + 1) else st.channel)
  }

  /** The delay of a new timer: none when the last rebuild is too long ago. */
  function DelayAt(cfg: Config, st: State): (d: nat)
  {
    if st.now - st.lastRebuild > cfg.maxDelay then 0 else cfg.delay
  }

  predicate Enabled(st: State, step: Step)
  {
    match step
    case Accept => true
    case Reject => true
    case Fire(finish) => st.pending.Some? && st.pending.value <= st.now <= finish
    case Wait(until) => st.now <= until
    case Receive => st.channel.Some?
  }

  function Next(cfg: Config, st: State, step: Step): (st': State)
    requires Enabled(st, step)
  {
    match step
    case Accept =>
      st.(outstanding := st.outstanding + 1,
          pending := Some(st.now + DelayAt(cfg, st)),
          arrivals := st.arrivals + [st.now],
          accepted := st.accepted + [st.now])
    case Reject => Counted(st).(rejected := st.rejected + 1)
    case Fire(finish) =>
      Counted(st).(now := finish, outstanding := 0, pending := None, lastRebuild := finish, arrivals := [],
                   rebuilds := st.rebuilds + [Rebuild(st.now, finish, st.lastRebuild, st.arrivals)])
    case Wait(until) => st.(now := until)
    case Receive => st.(channel := None, received := st.received + [st.channel.value])
  }

  /** The state after some steps, if each is enabled where it is taken. */
  function Run(cfg: Config, start: nat, steps: seq<Step>): (st: Option<State>)
  {
    if steps == [] then Some(Start(start))
    else
      var n := |steps| - 1;
      var before := Run(cfg, start, steps[..n]);
      if before.Some? && Enabled(before.value, steps[n]) then Some(Next(cfg, before.value, steps[n])) else None
  }

  predicate IsRun(cfg: Config, start: nat, steps: seq<Step>)
  {
    Run(cfg, start, steps).Some?
  }

  function After(cfg: Config, start: nat, steps: seq<Step>): (st: State)
    requires IsRun(cfg, start, steps)
  {
    Run(cfg, start, steps).value
  }

  // ----- conservation, sequence numbers -------------------------------------------------------

  function Drained(rebuilds: seq<Rebuild>): (times: seq<nat>)
  {
    if rebuilds == [] then []
    else Drained(rebuilds[..|rebuilds| - 1]) + rebuilds[|rebuilds| - 1].batch
  }

  ghost predicate Increasing(s: seq<nat>)
  {
    forall i, j :: 0 <= i < j < |s| ==> s[i] < s[j]
  }

  /** The books: a timer runs exactly when events are outstanding; every accepted event is
      in exactly one batch or outstanding, in order; every rebuild drained something; the
      sequence number counts rejected events and rebuilds; and what is received increases. */
  ghost predicate Books(st: State)
  {
    && (st.pending.Some? <==> st.outstanding > 0)
    && |st.arrivals| == st.outstanding
    && st.accepted == Drained(st.rebuilds) + st.arrivals
    && (forall i :: 0 <= i < |st.rebuilds| ==> st.rebuilds[i].batch != [])
    && st.sequence == st.rejected + |st.rebuilds|
    && Increasing(st.received)
    && (forall i :: 0 <= i < |st.received| ==> st.received[i] <= st.sequence)
    && (st.channel.Some? ==> st.channel.value <= st.sequence
                             && forall i :: 0 <= i < |st.received| ==> st.received[i] < st.channel.value)
  }

  lemma BooksStep(cfg: Config, st: State, step: Step)
    requires Books(st) && Enabled(st, step)
    ensures Books(Next(cfg, st, step))
  {
    var after := Next(cfg, st, step);
    if step.Fire? {
      assert after.rebuilds[..|st.rebuilds|] == st.rebuilds;
    }
  }

  lemma {:induction false} RunKeepsBooks(cfg: Config, start: nat, steps: seq<Step>)
    requires IsRun(cfg, start, steps)
    ensures Books(After(cfg, start, steps))
  {
    if steps != [] {
      var n := |steps| - 1;
      RunKeepsBooks(cfg, start, steps[..n]);
      BooksStep(cfg, After(cfg, start, steps[..n]), steps[n]);
    }
  }

  // ----- rebuilds are spaced ------------------------------------------------------------------

  function Min(a: nat, b: nat): (m: nat)
  {
    if a < b then a else b
  }

  /** The end of rebuild i - 1, or the start of the handler. */
  function EndBefore(start: nat, rebuilds: seq<Rebuild>, i: nat): (t: nat)
    requires i <= |rebuilds|
  {
    if i == 0 then start else rebuilds[i - 1].finish
  }

  predicate SpacedAt(gap: nat, start: nat, rebuilds: seq<Rebuild>, i: nat)
    requires i < |rebuilds|
  {
    && rebuilds[i].since == EndBefore(start, rebuilds, i)
    && rebuilds[i].since + gap <= rebuilds[i].start <= rebuilds[i].finish
  }

  /** No rebuild starts sooner than min(delay, maxDelay) after the one before it ended, or
      after the start of the handler. */
  ghost predicate Spaced(cfg: Config, start: nat, st: State)
  {
    var gap := Min(cfg.delay, cfg.maxDelay);
    && st.lastRebuild <= st.now
    && (st.pending.Some? ==> st.pending.value >= st.lastRebuild + gap)
    && (forall i: nat :: i < |st.rebuilds| ==> SpacedAt(gap, start, st.rebuilds, i))
    && st.lastRebuild == EndBefore(start, st.rebuilds, |st.rebuilds|)
  }

  lemma SpacedStep(cfg: Config, start: nat, st: State, step: Step)
    requires Spaced(cfg, start, st) && Enabled(st, step)
    ensures Spaced(cfg, start, Next(cfg, st, step))
  {
    var after, gap := Next(cfg, st, step), Min(cfg.delay, cfg.maxDelay);
    forall i: nat | i < |after.rebuilds|
      ensures SpacedAt(gap, start, after.rebuilds, i)
    {
      if i < |st.rebuilds| {
        assert SpacedAt(gap, start, st.rebuilds, i);
      }
    }
  }

  lemma {:induction false} RunIsSpaced(cfg: Config, start: nat, steps: seq<Step>)
    requires IsRun(cfg, start, steps)
    ensures Spaced(cfg, start, After(cfg, start, steps))
  {
    if steps != [] {
      var n := |steps| - 1;
      RunIsSpaced(cfg, start, steps[..n]);
      SpacedStep(cfg, start, After(cfg, start, steps[..n]), steps[n]);
    }
  }

  // ----- an event does not wait for ever --------------------------------------------------------

  /** A due timer is served when it is due: time does not pass it by. */
  ghost predicate Punctual(cfg: Config, start: nat, steps: seq<Step>)
    requires IsRun(cfg, start, steps)
  {
    steps == [] || (var n := |steps| - 1;
                    && Punctual(cfg, start, steps[..n])
                    && var before := After(cfg, start, steps[..n]);
                       steps[n].Wait? && before.pending.Some? ==> steps[n].until <= before.pending.value)
  }

  function Max(a: nat, b: nat): (m: nat)
  {
    if a < b then b else a
  }

  /** By when an event that arrived at a time must be in a rebuild, given the end of the
      rebuild before it. */
  function Deadline(cfg: Config, since: nat, arrival: nat): (t: nat)
  {
    Max(arrival, since + cfg.maxDelay + cfg.delay)
  }

  ghost predicate Prompt(cfg: Config, st: State)
  {
    && (st.pending.Some? ==>
          && st.now <= st.pending.value
          && forall i :: 0 <= i < |st.arrivals| ==> st.pending.value <= Deadline(cfg, st.lastRebuild, st.arrivals[i]))
    && (forall i, j :: 0 <= i < |st.rebuilds| && 0 <= j < |st.rebuilds[i].batch| ==>
          st.rebuilds[i].start <= Deadline(cfg, st.rebuilds[i].since, st.rebuilds[i].batch[j]))
  }

  lemma PromptStep(cfg: Config, start: nat, st: State, step: Step)
    requires Books(st) && Spaced(cfg, start, st) && Prompt(cfg, st) && Enabled(st, step)
    requires step.Wait? && st.pending.Some? ==> step.until <= st.pending.value
    ensures Prompt(cfg, Next(cfg, st, step))
  {
  }

  /** However many later events re-arm the timer: every event that was accepted is in a
      rebuild that started by its deadline, or that deadline has not passed. */
  lemma {:induction false} RunIsPrompt(cfg: Config, start: nat, steps: seq<Step>)
    requires IsRun(cfg, start, steps) && Punctual(cfg, start, steps)
    ensures Prompt(cfg, After(cfg, start, steps))
  {
    if steps != [] {
      var n := |steps| - 1;
      RunIsPrompt(cfg, start, steps[..n]);
      RunKeepsBooks(cfg, start, steps[..n]);
      RunIsSpaced(cfg, start, steps[..n]);
      PromptStep(cfg, start, After(cfg, start, steps[..n]), steps[n]);
    }
  }

  lemma EveryEventIsServed(cfg: Config, start: nat, steps: seq<Step>)
    requires IsRun(cfg, start, steps) && Punctual(cfg, start, steps)
    ensures var st := After(cfg, start, steps);
            && st.accepted == Drained(st.rebuilds) + st.arrivals
            && (forall i, j :: 0 <= i < |st.rebuilds| && 0 <= j < |st.rebuilds[i].batch| ==>
                  st.rebuilds[i].start <= Deadline(cfg, st.rebuilds[i].since, st.rebuilds[i].batch[j]))
            && (forall i :: 0 <= i < |st.arrivals| ==>
                  st.now <= Deadline(cfg, st.lastRebuild, st.arrivals[i]))
  {
    RunIsPrompt(cfg, start, steps);
    RunKeepsBooks(cfg, start, steps);
  }

  // ----- the records are those of the run --------------------------------------------------------

  /** The time after some steps: time passes while the handler waits and while it rebuilds. */
  function ClockAfter(start: nat, steps: seq<Step>): (t: nat)
  {
    if steps == [] then start
    else
      match steps[|steps| - 1]
      case Wait(until) => until
      case Fire(finish) => finish
      case _ => ClockAfter(start, steps[..|steps| - 1])
  }

  /** When the events that need a rebuild came. */
  function EventTimes(start: nat, steps: seq<Step>): (times: seq<nat>)
  {
    if steps == [] then []
    else
      var before := steps[..|steps| - 1];
      EventTimes(start, before) + if steps[|steps| - 1].Accept? then [ClockAfter(start, before)] else []
  }

  /** When rebuilds started and ended. */
  function RebuildTimes(start: nat, steps: seq<Step>): (times: seq<(nat, nat)>)
  {
    if steps == [] then []
    else
      var before, step := steps[..|steps| - 1], steps[|steps| - 1];
      RebuildTimes(start, before) + if step.Fire? then [(ClockAfter(start, before), step.finish)] else []
  }

  function TimesOf(rebuilds: seq<Rebuild>): (times: seq<(nat, nat)>)
  {
    if rebuilds == [] then []
    else TimesOf(rebuilds[..|rebuilds| - 1]) + [(rebuilds[|rebuilds| - 1].start, rebuilds[|rebuilds| - 1].finish)]
  }

  /** What a run records is what happened in it: the time, every event that needed a rebuild
      when it came, and every rebuild when it started and ended. */
  lemma {:induction false} RecordsAreTrue(cfg: Config, start: nat, steps: seq<Step>)
    requires IsRun(cfg, start, steps)
    ensures var st := After(cfg, start, steps);
            && st.now == ClockAfter(start, steps)
            && st.accepted == EventTimes(start, steps)
            && TimesOf(st.rebuilds) == RebuildTimes(start, steps)
  {
    if steps != [] {
      var n := |steps| - 1;
      RecordsAreTrue(cfg, start, steps[..n]);
      var before, after := After(cfg, start, steps[..n]), After(cfg, start, steps);
      if steps[n].Fire? {
        assert after.rebuilds[..|before.rebuilds|] == before.rebuilds;
      }
    }
  }

  // ----- every event starts the wait anew ----------------------------------------------------------

  function Last(times: seq<nat>): (t: nat)
    requires times != []
  {
    times[|times| - 1]
  }

  /** When the rebuild is due whose last event came at a time, given the end of the rebuild
      before: after a quiet period, unless that end is too long ago. */
  function DueAfter(cfg: Config, since: nat, t: nat): (due: nat)
  {
    if t - since > cfg.maxDelay then t else t + cfg.delay
  }

  ghost predicate Debounced(cfg: Config, st: State)
  {
    && (st.arrivals != [] ==> st.pending == Some(DueAfter(cfg, st.lastRebuild, Last(st.arrivals))))
    && (forall i :: 0 <= i < |st.rebuilds| && st.rebuilds[i].batch != [] ==>
          DueAfter(cfg, st.rebuilds[i].since, Last(st.rebuilds[i].batch)) <= st.rebuilds[i].start)
  }

  lemma {:induction false} RunIsDebounced(cfg: Config, start: nat, steps: seq<Step>)
    requires IsRun(cfg, start, steps)
    ensures Debounced(cfg, After(cfg, start, steps))
  {
    if steps != [] {
      var n := |steps| - 1;
      RunIsDebounced(cfg, start, steps[..n]);
      RunKeepsBooks(cfg, start, steps[..n]);
    }
  }

  /** The quiet period: no rebuild starts sooner than the delay after the last event that it
      drained, unless that event came longer than the maximal delay after the rebuild before. */
  lemma RebuildsWaitForQuiet(cfg: Config, start: nat, steps: seq<Step>, i: nat)
    requires IsRun(cfg, start, steps) && i < |After(cfg, start, steps).rebuilds|
    ensures var b := After(cfg, start, steps).rebuilds[i];
            && b.batch != []
            && b.since == EndBefore(start, After(cfg, start, steps).rebuilds, i)
            && var t := b.batch[|b.batch| - 1];
               if t - b.since > cfg.maxDelay then b.start >= t else b.start >= t + cfg.delay
  {
    RunKeepsBooks(cfg, start, steps);
    RunIsSpaced(cfg, start, steps);
    RunIsDebounced(cfg, start, steps);
    assert SpacedAt(Min(cfg.delay, cfg.maxDelay), start, After(cfg, start, steps).rebuilds, i);
  }

  ghost predicate OnTime(cfg: Config, rebuilds: seq<Rebuild>)
  {
    forall i :: 0 <= i < |rebuilds| && rebuilds[i].batch != [] ==>
      rebuilds[i].start == DueAfter(cfg, rebuilds[i].since, Last(rebuilds[i].batch))
  }

  lemma {:induction false} RunIsOnTime(cfg: Config, start: nat, steps: seq<Step>)
    requires IsRun(cfg, start, steps) && Punctual(cfg, start, steps)
    ensures OnTime(cfg, After(cfg, start, steps).rebuilds)
  {
    if steps != [] {
      var n := |steps| - 1;
      RunIsOnTime(cfg, start, steps[..n]);
      RunIsPrompt(cfg, start, steps[..n]);
      RunIsDebounced(cfg, start, steps[..n]);
      RunKeepsBooks(cfg, start, steps[..n]);
    }
  }

  /** If due timers are served when they are due, each rebuild starts exactly the delay after
      the last event that it drained, or with that event if the rebuild before is too long ago. */
  lemma RebuildsStartWhenQuiet(cfg: Config, start: nat, steps: seq<Step>, i: nat)
    requires IsRun(cfg, start, steps) && Punctual(cfg, start, steps) && i < |After(cfg, start, steps).rebuilds|
    ensures var b := After(cfg, start, steps).rebuilds[i];
            && b.batch != []
            && b.since == EndBefore(start, After(cfg, start, steps).rebuilds, i)
            && var t := b.batch[|b.batch| - 1];
               b.start == if t - b.since > cfg.maxDelay then t else t + cfg.delay
  {
    RebuildsWaitForQuiet(cfg, start, steps, i);
    RunIsOnTime(cfg, start, steps);
  }

  // ----- what a watcher is told --------------------------------------------------------------------

  /** How many steps counted: events that need no rebuild, and rebuilds. */
  function Counts(steps: seq<Step>): (n: nat)
  {
    if steps == [] then 0
    else Counts(steps[..|steps| - 1]) + if steps[|steps| - 1].Reject? || steps[|steps| - 1].Fire? then 1 else 0
  }

  /** How many steps there were when the watcher last took a number. */
  function LastLook(steps: seq<Step>): (k: nat)
    ensures k <= |steps|
  {
    if steps == [] then 0
    else if steps[|steps| - 1].Receive? then |steps|
    else LastLook(steps[..|steps| - 1])
  }

  /** The numbers that the watcher took: each time, that of the first count since the time before. */
  function Taken(steps: seq<Step>): (numbers: seq<nat>)
  {
    if steps == [] then []
    else
      var before := steps[..|steps| - 1];
      Taken(before) + if steps[|steps| - 1].Receive? then [Counts(before[..LastLook(before)]) + 1] else []
  }

  /** The channel holds the number of the first count since the watcher last took one, and it
      is empty exactly if there was no count since. */
  lemma {:induction false} FirstCountIsOffered(cfg: Config, start: nat, steps: seq<Step>)
    requires IsRun(cfg, start, steps)
    ensures var st, seen := After(cfg, start, steps), Counts(steps[..LastLook(steps)]);
            && seen <= Counts(steps) == st.sequence
            && st.channel == if seen == Counts(steps) then None else Some(seen + 1)
  {
    if steps != [] {
      var n := |steps| - 1;
      FirstCountIsOffered(cfg, start, steps[..n]);
      assert steps[..|steps|] == steps;
      assert steps[..n][..LastLook(steps[..n])] == steps[..LastLook(steps[..n])];
    }
  }

  /** And that is what the watcher gets, each time. */
  lemma {:induction false} TakenAreReceived(cfg: Config, start: nat, steps: seq<Step>)
    requires IsRun(cfg, start, steps)
    ensures After(cfg, start, steps).received == Taken(steps)
  {
    if steps != [] {
      TakenAreReceived(cfg, start, steps[..|steps| - 1]);
      FirstCountIsOffered(cfg, start, steps[..|steps| - 1]);
    }
  }
}
