/** The event handler (internal/sesame/handler.go): cache, rebuild timer and published
    table together. */
module Handler {
  import opened Text
  import opened Kube
  import opened Proxies
  import opened Lookups
  import opened Cache
  import opened Holdoff
  import Walks
  import Builder

  /** What is sent to the handler. `onlyStatus`: old and new differ at most in status,
      resource version and managed fields. */
  datatype Event =
    | Added(obj: Object)
    | Updated(oldObj: Object, newObj: Object, onlyStatus: bool)
    | Deleted(obj: Object)
    | Elected(rebuild: bool)
    | Unknown

  /** onUpdate: the cache after an event, and whether the table must be rebuilt. */
  function Applied(c: Contents, e: Event): (r: (Contents, bool))
  {
    match e
    case Added(obj) => Inserted(c, obj)
    case Updated(oldObj, newObj, onlyStatus) =>
      if onlyStatus then (c, false)
      else
        var (mid, removed) := Removed(c, oldObj);
        var (after, inserted) := Inserted(mid, newObj);
        (after, removed || inserted)
    case Deleted(obj) => Removed(c, obj)
    case Elected(rebuild) => (c, rebuild)
    case Unknown => (c, false)
  }

  /** If the event inserts a service, the filter looks in the right place. */
  predicate EventOk(c: Contents, e: Event)
  {
    match e
    case Added(obj) => Noticed(c, obj)
    case Updated(oldObj, newObj, onlyStatus) => onlyStatus || Noticed(Removed(c, oldObj).0, newObj)
    case _ => true
  }

  /** An event that needs no rebuild leaves the table that a build would give as it is. */
  lemma QuietEventKeepsTable(set_: Settings, c: Contents, e: Event)
    requires EventOk(c, e) && !Applied(c, e).1
    ensures TableOf(EnvOf(set_, Applied(c, e).0)) == TableOf(EnvOf(set_, c))
  {
    match e
    case Added(obj) => QuietInsertKeepsTable(set_, c, obj);
    case Updated(oldObj, newObj, onlyStatus) =>
      if !onlyStatus {
        QuietRemoveKeepsContents(c, oldObj);
        QuietInsertKeepsTable(set_, c, newObj);
      }
    case Deleted(obj) => QuietRemoveKeepsContents(c, obj);
    case Elected(_) =>
    case Unknown =>
  }

  // ----- the loop ---------------------------------------------------------------------------

  /** The whole state: the timer with its records, the cache, and the table that observers
      were last given. */
  datatype Whole = Whole(timer: State, contents: Contents, published: Option<map<Name, Host>>)

  /** What one turn of the loop, or its surroundings, can do. */
  datatype Turn =
    | Handle(event: Event)
    | Refresh(finish: nat)
    | Idle(until: nat)
    | Watch

  function StepOf(w: Whole, t: Turn): (s: Step)
  {
    match t
    case Handle(event) => if Applied(w.contents, event).1 then Accept else Reject
    case Refresh(finish) => Fire(finish)
    case Idle(until) => Wait(until)
    case Watch => Receive
  }

  ghost function Turned(cfg: Config, set_: Settings, w: Whole, t: Turn): (w': Whole)
    requires Enabled(w.timer, StepOf(w, t))
  {
    var timer := Next(cfg, w.timer, StepOf(w, t));
    match t
    case Handle(event) => Whole(timer, Applied(w.contents, event).0, w.published)
    case Refresh(_) => Whole(timer, w.contents, Some(TableOf(EnvOf(set_, w.contents))))
    case _ => w.(timer := timer)
  }

  ghost function RunFrom(cfg: Config, set_: Settings, w: Whole, turns: seq<Turn>): (out: Option<Whole>)
    decreases |turns|
  {
    if turns == [] then Some(w)
    else if Enabled(w.timer, StepOf(w, turns[0])) then RunFrom(cfg, set_, Turned(cfg, set_, w, turns[0]), turns[1..])
    else None
  }

  /** With no rebuild pending, what was published last is what a build would publish now. */
  ghost predicate Consistent(set_: Settings, w: Whole)
  {
    && Books(w.timer)
    && (w.published.Some? && w.timer.pending.None? ==> w.published.value == TableOf(EnvOf(set_, w.contents)))
  }

  predicate TurnOk(w: Whole, t: Turn)
  {
    t.Handle? ==> EventOk(w.contents, t.event)
  }

  /** Every turn of the run is such a turn in the state in which it is taken. */
  ghost predicate RunOk(cfg: Config, set_: Settings, w: Whole, turns: seq<Turn>)
    requires RunFrom(cfg, set_, w, turns).Some?
    decreases |turns|
  {
    turns == [] || (TurnOk(w, turns[0]) && RunOk(cfg, set_, Turned(cfg, set_, w, turns[0]), turns[1..]))
  }

  lemma TurnKeepsConsistent(cfg: Config, set_: Settings, w: Whole, t: Turn)
    requires Consistent(set_, w) && Enabled(w.timer, StepOf(w, t)) && TurnOk(w, t)
    ensures Consistent(set_, Turned(cfg, set_, w, t))
  {
    BooksStep(cfg, w.timer, StepOf(w, t));
    if t.Handle? && !Applied(w.contents, t.event).1 {
      QuietEventKeepsTable(set_, w.contents, t.event);
    }
  }

  lemma {:induction false} RunKeepsConsistent(cfg: Config, set_: Settings, w: Whole, turns: seq<Turn>)
    requires Consistent(set_, w) && RunFrom(cfg, set_, w, turns).Some? && RunOk(cfg, set_, w, turns)
    ensures Consistent(set_, RunFrom(cfg, set_, w, turns).value)
    decreases |turns|
  {
    if turns != [] {
      TurnKeepsConsistent(cfg, set_, w, turns[0]);
      RunKeepsConsistent(cfg, set_, Turned(cfg, set_, w, turns[0]), turns[1..]);
    }
  }

  function Begin(now: nat): (w: Whole)
  {
    Whole(Start(now), Contents(map[], map[]), None)
  }

  /** Quiescent consistency: in every state that the handler can reach from its start, after
      the first rebuild and with none pending, the published table is the table of the
      cache. */
  lemma QuiescentIsConsistent(cfg: Config, set_: Settings, now: nat, turns: seq<Turn>)
    requires RunFrom(cfg, set_, Begin(now), turns).Some? && RunOk(cfg, set_, Begin(now), turns)
    ensures var w := RunFrom(cfg, set_, Begin(now), turns).value;
            w.published.Some? && w.timer.pending.None? ==> w.published.value == TableOf(EnvOf(set_, w.contents))
  {
    RunKeepsConsistent(cfg, set_, Begin(now), turns);
  }

  lemma EventKeepsFiled(c: Contents, e: Event)
    requires IsFiled(c)
    ensures IsFiled(Applied(c, e).0)
  {
    match e
    case Added(obj) => InsertKeepsFiled(c, obj);
    case Updated(oldObj, newObj, onlyStatus) =>
      if !onlyStatus {
        RemoveKeepsFiled(c, oldObj);
        InsertKeepsFiled(Removed(c, oldObj).0, newObj);
      }
    case Deleted(obj) => RemoveKeepsFiled(c, obj);
    case Elected(_) =>
    case Unknown =>
  }

  lemma {:induction false} RunKeepsFiled(cfg: Config, set_: Settings, w: Whole, turns: seq<Turn>)
    requires IsFiled(w.contents) && RunFrom(cfg, set_, w, turns).Some?
    ensures IsFiled(RunFrom(cfg, set_, w, turns).value.contents)
    decreases |turns|
  {
    if turns != [] {
      if turns[0].Handle? {
        EventKeepsFiled(w.contents, turns[0].event);
      }
      RunKeepsFiled(cfg, set_, Turned(cfg, set_, w, turns[0]), turns[1..]);
    }
  }

  /** In every state that the handler can reach, objects are filed under their own names, so
      what a build reads is. */
  lemma CacheStaysFiled(cfg: Config, set_: Settings, now: nat, turns: seq<Turn>)
    requires RunFrom(cfg, set_, Begin(now), turns).Some?
    ensures Filed(EnvOf(set_, RunFrom(cfg, set_, Begin(now), turns).value.contents))
  {
    RunKeepsFiled(cfg, set_, Begin(now), turns);
  }

  /** The objects in the event have namespaces, as those of an API server do. */
  predicate HasNamespaces(e: Event)
  {
    match e
    case Added(obj) => obj.ServiceObject? ==> obj.service.name.namespace != ""
    case Updated(_, newObj, _) => newObj.ServiceObject? ==> newObj.service.name.namespace != ""
    case _ => true
  }

  /** In particular this holds of all runs whose services have namespaces. */
  lemma {:induction false} NamespacesAreEnough(cfg: Config, set_: Settings, w: Whole, turns: seq<Turn>)
    requires RunFrom(cfg, set_, w, turns).Some?
    requires forall i :: 0 <= i < |turns| && turns[i].Handle? ==> HasNamespaces(turns[i].event)
    ensures RunOk(cfg, set_, w, turns)
    decreases |turns|
  {
    if turns != [] {
      NamespacesAreEnough(cfg, set_, Turned(cfg, set_, w, turns[0]), turns[1..]);
    }
  }

  /** The steps that the timer takes in a run of the handler. */
  ghost function StepsOf(cfg: Config, set_: Settings, w: Whole, turns: seq<Turn>): (steps: seq<Step>)
    requires RunFrom(cfg, set_, w, turns).Some?
    decreases |turns|
  {
    if turns == [] then []
    else [StepOf(w, turns[0])] + StepsOf(cfg, set_, Turned(cfg, set_, w, turns[0]), turns[1..])
  }

  /** A run of the handler is a run of its timer, so what holds of every run of the timer
      (conservation, spacing, deadlines) holds of the handler. */
  lemma {:induction false} HandlerRunsTimer(cfg: Config, set_: Settings, start: nat, before: seq<Step>, w: Whole,
                                            turns: seq<Turn>)
    requires Run(cfg, start, before) == Some(w.timer) && RunFrom(cfg, set_, w, turns).Some?
    ensures Run(cfg, start, before + StepsOf(cfg, set_, w, turns)) == Some(RunFrom(cfg, set_, w, turns).value.timer)
    decreases |turns|
  {
    if turns == [] {
      assert before + [] == before;
    } else {
      var step, next := StepOf(w, turns[0]), Turned(cfg, set_, w, turns[0]);
      assert (before + [step])[..|before|] == before;
      HandlerRunsTimer(cfg, set_, start, before + [step], next, turns[1..]);
      Regroup(before, [step], StepsOf(cfg, set_, next, turns[1..]));
    }
  }

  // ----- the code -----------------------------------------------------------------------------

  /** The handler's own variables. `clock` is time.Now(); the fields below `published`
      record what has happened and are never read by the loop. */
  class EventHandler {
    const holdoff: Config
    const settings: Settings
    const source: KubernetesCache
    var clock: nat
    var outstanding: nat
    var pending: Option<nat>
    var lastDAGRebuild: nat
    var seq_: nat
    var sequence: Option<nat>
    var dag: Walks.Hosts
    ghost var published: Option<map<Name, Host>>
    ghost var arrivals: seq<nat>
    ghost var accepted: seq<nat>
    ghost var rejected: nat
    ghost var rebuilds: seq<Holdoff.Rebuild>
    ghost var received: seq<nat>

    ghost function Now(): (w: Whole)
      reads this, source
    {
      Whole(Timer(), source.Now(), published)
    }

    ghost function Timer(): (st: State)
      reads this
    {
      State(clock, outstanding, pending, lastDAGRebuild, seq_, sequence,
            arrivals, accepted, rejected, rebuilds, received)
    }

    constructor (holdoff: Config, settings: Settings, now: nat)
      ensures Now() == Begin(now) && this.holdoff == holdoff && this.settings == settings
      ensures fresh(source) && Serving()
    {
      this.holdoff := holdoff;
      this.settings := settings;
      source := new KubernetesCache();
      clock, outstanding, pending, lastDAGRebuild, seq_, sequence := now, 0, None, now, 0, None;
      dag := Builder.NO_HOSTS;
      published, arrivals, accepted, rejected, rebuilds, received := None, [], [], 0, [], [];
    }

    /** The hosts of the last build serve the table that was published. */
    ghost predicate Serving()
      reads this
    {
      published.Some? ==> Builder.Serves(published.value, dag)
    }

    method OnUpdate(op: Event) returns (rebuild: bool)
      modifies source
      ensures (source.Now(), rebuild) == Applied(old(source.Now()), op)
    {
      match op {
        case Added(obj) =>
          rebuild := source.Insert(obj);
        case Updated(oldObj, newObj, onlyStatus) =>
          if onlyStatus {
            return false;
          }
          var remove := source.Remove(oldObj);
          var insert := source.Insert(newObj);
          rebuild := remove || insert;
        case Deleted(obj) =>
          rebuild := source.Remove(obj);
        case Elected(b) =>
          rebuild := b;
        case Unknown =>
          rebuild := false;
      }
    }

    /** The send does not block: a full channel keeps the older number. */
    method IncSequence()
      modifies this`seq_, this`sequence
      ensures seq_ == old(seq_) + 1
      ensures sequence == if old(sequence).None? then Some(seq_) else old(sequence)
    {
      seq_ := seq_ + 1;
      if sequence.None? {
        sequence := Some(seq_);
      }
    }

    /** case op := <-e.update */
    method HandleUpdate(op: Event)
      modifies this, source
      ensures Now() == Turned(holdoff, settings, old(Now()), Handle(op)) && dag == old(dag)
    {
      var rebuild := OnUpdate(op);
      if rebuild {
        ArmTimer();
      } else {
        NoteRejected();
      }
    }

    /** An event that needs no rebuild is counted at once. */
    method NoteRejected()
      modifies this`seq_, this`sequence, this`rejected
      ensures Timer() == Next(holdoff, old(Timer()), Reject)
    {
      IncSequence();
      rejected := rejected + 1;
    }

    /** An event that needs a rebuild: the timer that was running is stopped and replaced. */
    method ArmTimer()
      modifies this`outstanding, this`pending, this`arrivals, this`accepted
      ensures Timer() == Next(holdoff, old(Timer()), Accept)
    {
      outstanding := outstanding + 1;
      var delay := holdoff.delay;
      if clock - lastDAGRebuild > holdoff.maxDelay {
        delay := 0;
      }
      pending := Some(clock + delay);
      arrivals, accepted := arrivals + [clock], accepted + [clock];
    }

    /** rebuildDAG: build from the cache and give the result to the observers. */
    method RebuildDAG()
      modifies this`published, this`dag
      ensures published == Some(TableOf(EnvOf(settings, source.Now()))) && Serving()
    {
      var latestDAG, _ := Builder.Build(settings, source);
      dag := latestDAG;
      published := Some(TableOf(EnvOf(settings, source.Now())));
    }

    /** What surrounds the rebuild: reset, count, and note the time at which it ended. */
    method NoteRebuild(finish: nat)
      requires pending.Some? && pending.value <= clock <= finish
      modifies this`clock, this`outstanding, this`pending, this`lastDAGRebuild, this`seq_, this`sequence,
               this`arrivals, this`rebuilds
      ensures Timer() == Next(holdoff, old(Timer()), Fire(finish))
    {
      rebuilds := rebuilds + [Holdoff.Rebuild(clock, finish, lastDAGRebuild, arrivals)];
      arrivals := [];
      outstanding, pending := 0, None;
      IncSequence();
      clock := finish;
      lastDAGRebuild := clock;
    }

    /** case <-pending: the timer has fired; the rebuild takes until `finish`. */
    method HandlePending(finish: nat)
      requires pending.Some? && pending.value <= clock <= finish
      modifies this
      ensures Now() == Turned(holdoff, settings, old(Now()), Refresh(finish)) && Serving()
    {
      NoteRebuild(finish);
      RebuildDAG();
    }

    /** One turn, if it is possible now. */
    method TakeTurn(t: Turn) returns (possible: bool)
      requires Serving()
      modifies this, source
      ensures Serving()
      ensures possible <==> Enabled(old(Now()).timer, StepOf(old(Now()), t))
      ensures Now() == if possible then Turned(holdoff, settings, old(Now()), t) else old(Now())
    {
      match t {
        case Handle(event) =>
          HandleUpdate(event);
          possible := true;
        case Refresh(finish) =>
          possible := pending.Some? && pending.value <= clock <= finish;
          if possible {
            HandlePending(finish);
          }
        case Idle(until) =>
          possible := clock <= until;
          if possible {
            clock := until;
          }
        case Watch =>
          possible := sequence.Some?;
          if possible {
            received := received + [sequence.value];
            sequence := None;
          }
      }
    }

    /** The loop, driven by what its select finds ready, turn by turn. It ends with the
        script, or at a turn that is not possible. */
    method TakeTurns(turns: seq<Turn>) returns (done: nat)
      requires Serving()
      modifies this, source
      ensures Serving()
      ensures done <= |turns|
      ensures RunFrom(holdoff, settings, old(Now()), turns[..done]) == Some(Now())
      ensures done < |turns| ==> !Enabled(Now().timer, StepOf(Now(), turns[done]))
    {
      done := 0;
      ghost var begin := Now();
      while done < |turns|
        invariant done <= |turns| && Serving()
        invariant RunFrom(holdoff, settings, begin, turns[..done]) == Some(Now())
      {
        RunFromSnoc(holdoff, settings, begin, turns, done);
        var possible := TakeTurn(turns[done]);
        if !possible {
          break;
        }
        done := done + 1;
      }
    }

    /** The event loop. After the first rebuild and with none pending, the hosts serve what a
        build from the current cache would give. */
    method Start(turns: seq<Turn>) returns (done: nat)
      requires Serving()
      modifies this, source
      ensures Serving()
      ensures done <= |turns|
      ensures RunFrom(holdoff, settings, old(Now()), turns[..done]) == Some(Now())
      ensures done < |turns| ==> !Enabled(Now().timer, StepOf(Now(), turns[done]))
      ensures Consistent(settings, old(Now())) && RunOk(holdoff, settings, old(Now()), turns[..done]) ==>
                published.Some? && pending.None? ==> Builder.Serves(TableOf(EnvOf(settings, source.Now())), dag)
    {
      done := TakeTurns(turns);
      if Consistent(settings, old(Now())) && RunOk(holdoff, settings, old(Now()), turns[..done]) {
        RunKeepsConsistent(holdoff, settings, old(Now()), turns[..done]);
      }
    }
  }

  /** One more turn at the end of a run. */
  lemma {:induction false} RunFromSnoc(cfg: Config, set_: Settings, w: Whole, turns: seq<Turn>, k: nat)
    requires k < |turns| && RunFrom(cfg, set_, w, turns[..k]).Some?
    ensures var mid := RunFrom(cfg, set_, w, turns[..k]).value;
            RunFrom(cfg, set_, w, turns[..k + 1]) ==
            if Enabled(mid.timer, StepOf(mid, turns[k])) then Some(Turned(cfg, set_, mid, turns[k])) else None
    decreases k
  {
    if k == 0 {
      assert turns[..0] == [] && turns[..1][1..] == [];
    } else {
      assert turns[..k][0] == turns[0] && turns[..k + 1][0] == turns[0];
      assert turns[..k][1..] == turns[1..][..k - 1];
      assert turns[..k + 1][1..] == turns[1..][..k];
      RunFromSnoc(cfg, set_, Turned(cfg, set_, w, turns[0]), turns[1..], k - 1);
    }
  }
}
