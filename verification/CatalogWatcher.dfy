/** The catalog watcher as a step system: informer events arrive late, a debounce timer
    is stopped and replaced, fired timers queue for the recompute lock, and a recompute
    reads its two lists at different moments. */
module CatalogWatcher {
  import opened RouteTable
  import opened Wrappers

  /** Start-up: handlers for definitions, then for services, then a first recompute,
      then the initial-sync channel is closed. */
  datatype Stage = Fresh | DefinitionsWatched | Watching | Computed | Ready | Failed

  datatype Timer = Armed | Fired | Stopped

  /** A recompute under the lock: what it has listed so far, and whether none of that has
      changed since. */
  datatype Recompute = Recompute(initial: bool, defs: Option<seq<CatalogDef>>, svcs: Option<seq<Service>>,
                               current: bool)

  datatype State = State(
    stage: Stage,
    defs: seq<CatalogDef>,          // the informer cache
    svcs: seq<Service>,
    pending: nat,                   // events not yet delivered to a handler
    timers: map<nat, Timer>,
    debounce: Option<nat>,          // the debounceTimer field
    nextTimer: nat,
    waiting: nat,                   // fired timers waiting for the recompute lock
    initialWaiting: bool,           // Start's own call waits for it
    running: Option<Recompute>,     // the holder of the recompute lock
    table: Table,                   // what the resolver serves
    source: Option<(seq<CatalogDef>, seq<Service>)>,  // the lists the table was built from
    settled: bool,                  // since the last change, a recompute listed both and published
    lastFailed: bool,               // the last recompute could not list
    firstFailed: bool)              // the recompute that readiness waits for could not list

  function Initial(defs: seq<CatalogDef>, svcs: seq<Service>): State {
    State(Fresh, defs, svcs, 0, map[], None, 0, 0, false, None, map[], None, false, false, false)
  }

  /** How a table is made from the two lists. */
  type Builder = (seq<CatalogDef>, seq<Service>) -> Table

  /** The recompute's own way, for whatever URLs pass as valid. */
  function RouteBuilder(valid: URL -> bool): Builder {
    (defs, svcs) => Build(defs, svcs, valid)
  }

  datatype Event =
    | WatchDefinitions(replayed: nat)      // AddEventHandler replays what the cache holds
    | WatchServices(replayed: nat)
    | WatchFails
    | ChangeDefinitions(defs: seq<CatalogDef>)
    | ChangeServices(svcs: seq<Service>)
    | Deliver                              // a handler calls scheduleRecompute
    | Resync                               // the same, without a change behind it
    | Fire(timer: nat)
    | Lock(initial: bool)
    | ListDefinitions
    | ListServices
    | ListFails
    | Publish
    | CloseInitialSync

  predicate Started(s: State) {
    s.stage.Watching? || s.stage.Computed? || s.stage.Ready?
  }

  /** scheduleRecompute: stop the current timer, if it has not fired, and arm a new one. */
  function Schedule(s: State): State {
    var stopped := if s.debounce.Some? && s.debounce.value in s.timers && s.timers[s.debounce.value].Armed?
                   then s.timers[s.debounce.value := Stopped] else s.timers;
    s.(timers := stopped[s.nextTimer := Armed], debounce := Some(s.nextTimer), nextTimer := s.nextTimer + 1)
  }

  function Released(s: State): State
    requires s.running.Some?
  {
    s.(running := None, stage := if s.running.value.initial && s.stage.Watching? then Computed else s.stage)
  }

  /** A change to what was listed makes the running recompute outdated. */
  function Outdated(running: Option<Recompute>, definitions: bool): Option<Recompute> {
    match running
    case None => None
    case Some(r) => Some(r.(current := r.current && if definitions then r.defs.None? else r.svcs.None?))
  }

  function Next(s: State, e: Event, build: Builder): Option<State> {
    match e
    case WatchDefinitions(n) =>
      if s.stage.Fresh? then Some(s.(stage := DefinitionsWatched, pending := s.pending + n)) else None
    case WatchServices(n) =>
      if s.stage.DefinitionsWatched?
      then Some(s.(stage := Watching, pending := s.pending + n, initialWaiting := true)) else None
    case WatchFails =>
      if s.stage.Fresh? || s.stage.DefinitionsWatched? then Some(s.(stage := Failed)) else None
    case ChangeDefinitions(defs) =>
      Some(s.(defs := defs, pending := if s.stage.Fresh? then s.pending else s.pending + 1,
              running := Outdated(s.running, true), settled := false))
    case ChangeServices(svcs) =>
      Some(s.(svcs := svcs, pending := if Started(s) then s.pending + 1 else s.pending,
              running := Outdated(s.running, false), settled := false))
    case Deliver => if s.pending > 0 then Some(Schedule(s.(pending := s.pending - 1))) else None
    case Resync => if s.stage.Fresh? then None else Some(Schedule(s))
    case Fire(t) =>
      if t in s.timers && s.timers[t].Armed?
      then Some(s.(timers := s.timers[t := Fired], waiting := s.waiting + 1)) else None
    case Lock(initial) =>
      if s.running.Some? then None
      else if initial then
        if s.initialWaiting then
          Some(s.(initialWaiting := false, running := Some(Recompute(true, None, None, true))))
        else None
      else if s.waiting > 0 then Some(s.(waiting := s.waiting - 1, running := Some(Recompute(false, None, None, true))))
      else None
    case ListDefinitions =>
      if s.running.Some? && s.running.value.defs.None?
      then Some(s.(running := Some(s.running.value.(defs := Some(s.defs))))) else None
    case ListServices =>
      if s.running.Some? && s.running.value.defs.Some? && s.running.value.svcs.None?
      then Some(s.(running := Some(s.running.value.(svcs := Some(s.svcs))))) else None
    case ListFails =>
      if s.running.Some? && s.running.value.svcs.None?
      then Some(Released(s).(lastFailed := true, firstFailed := s.firstFailed || s.running.value.initial)) else None
    case Publish =>
      if s.running.Some? && s.running.value.defs.Some? && s.running.value.svcs.Some?
      then
        var defs, svcs := s.running.value.defs.value, s.running.value.svcs.value;
        Some(Released(s).(table := build(defs, svcs), source := Some((defs, svcs)),
                          settled := s.running.value.current, lastFailed := false))
      else None
    case CloseInitialSync => if s.stage.Computed? then Some(s.(stage := Ready)) else None
  }

  function Run(s: State, events: seq<Event>, build: Builder): Option<State>
    decreases |events|
  {
    if events == [] then Some(s)
    else match Next(s, events[0], build)
         case None => None
         case Some(t) => Run(t, events[1..], build)
  }

  ghost predicate Reached(s: State, build: Builder) {
    exists defs, svcs, events :: Run(Initial(defs, svcs), events, build) == Some(s)
  }

  // ---------- Coherence

  predicate TimerArmed(s: State) {
    s.debounce.Some? && s.debounce.value in s.timers && s.timers[s.debounce.value].Armed?
  }

  /** No undelivered event, no armed timer, no recompute waiting or running. */
  ghost predicate Quiescent(s: State) {
    && s.pending == 0 && s.waiting == 0 && !s.initialWaiting && s.running.None?
    && forall t | t in s.timers :: !s.timers[t].Armed?
  }

  /** A recompute that has not started is bound to come. */
  predicate Due(s: State) {
    s.pending > 0 || TimerArmed(s) || s.waiting > 0 || s.initialWaiting
  }

  /** What the cache holds has been published, is on its way, or could not be listed. */
  predicate Covered(s: State) {
    || Due(s)
    || (s.running.Some? && s.running.value.current)
    || (s.running.None? && (s.lastFailed || s.settled))
  }

  /** A current recompute has listed what the cache holds. */
  predicate CurrentLists(s: State) {
    s.running.Some? && s.running.value.current ==>
      && (s.running.value.defs.Some? ==> s.running.value.defs.value == s.defs)
      && (s.running.value.svcs.Some? ==> s.running.value.svcs.value == s.svcs)
  }

  predicate SettledSource(s: State) {
    s.settled ==> s.source == Some((s.defs, s.svcs)) && (s.running.Some? ==> s.running.value.current)
  }

  /** Only the timer in the debounceTimer field can be armed. */
  ghost predicate OneTimer(s: State) {
    forall t | t in s.timers :: t < s.nextTimer && (s.timers[t].Armed? ==> s.debounce == Some(t))
  }

  /** Where start-up and the recompute at hand stand. */
  predicate StagesAgree(s: State) {
    && (s.stage.Computed? || s.stage.Ready? ==> s.source.Some? || s.firstFailed)
    && (s.stage.Watching? ==> s.initialWaiting || (s.running.Some? && s.running.value.initial))
  }

  /** Definitions are listed first. */
  predicate ListedInOrder(s: State) {
    s.running.Some? && s.running.value.svcs.Some? ==> s.running.value.defs.Some?
  }

  ghost predicate TableBuilt(s: State, build: Builder) {
    s.table == if s.source.Some? then build(s.source.value.0, s.source.value.1) else map[]
  }

  ghost predicate Inv(s: State, build: Builder) {
    && OneTimer(s)
    && (Started(s) ==> Covered(s))
    && CurrentLists(s)
    && SettledSource(s)
    && TableBuilt(s, build)
    && StagesAgree(s)
    && ListedInOrder(s)
  }

  lemma StepKeepsStages(s: State, e: Event, build: Builder)
    requires StagesAgree(s) && Next(s, e, build).Some?
    ensures StagesAgree(Next(s, e, build).value)
  {
  }

  lemma StepKeepsListOrder(s: State, e: Event, build: Builder)
    requires ListedInOrder(s) && Next(s, e, build).Some?
    ensures ListedInOrder(Next(s, e, build).value)
  {
  }

  lemma StepKeepsTable(s: State, e: Event, build: Builder)
    requires TableBuilt(s, build) && Next(s, e, build).Some?
    ensures TableBuilt(Next(s, e, build).value, build)
  {
  }

  lemma StepKeepsOneTimer(s: State, e: Event, build: Builder)
    requires OneTimer(s) && Next(s, e, build).Some?
    ensures OneTimer(Next(s, e, build).value)
  {
  }

  /** Every event starts the debounce interval anew: its timer is the newest, and the only
      one that is armed. */
  lemma EventRestartsTimer(s: State, e: Event, build: Builder)
    requires OneTimer(s) && (e.Deliver? || e.Resync?) && Next(s, e, build).Some?
    ensures var t := Next(s, e, build).value;
            && t.debounce == Some(s.nextTimer) && s.nextTimer !in s.timers
            && forall id | id in t.timers :: t.timers[id].Armed? <==> id == s.nextTimer
  {
  }

  lemma StepKeepsCurrent(s: State, e: Event, build: Builder)
    requires CurrentLists(s) && Next(s, e, build).Some?
    ensures CurrentLists(Next(s, e, build).value)
  {
  }

  lemma StepKeepsSettled(s: State, e: Event, build: Builder)
    requires CurrentLists(s) && SettledSource(s) && Next(s, e, build).Some?
    ensures SettledSource(Next(s, e, build).value)
  {
  }

  lemma StepKeepsCover(s: State, e: Event, build: Builder)
    requires OneTimer(s) && (Started(s) ==> Covered(s))
    requires Next(s, e, build).Some? && Started(Next(s, e, build).value)
    ensures Covered(Next(s, e, build).value)
  {
  }

  lemma StepKeepsInv(s: State, e: Event, build: Builder)
    requires Inv(s, build) && Next(s, e, build).Some?
    ensures Inv(Next(s, e, build).value, build)
  {
    StepKeepsOneTimer(s, e, build);
    StepKeepsStages(s, e, build);
    StepKeepsListOrder(s, e, build);
    StepKeepsTable(s, e, build);
    StepKeepsCurrent(s, e, build);
    StepKeepsSettled(s, e, build);
    if Started(Next(s, e, build).value) {
      StepKeepsCover(s, e, build);
    }
  }

  lemma {:induction false} RunKeepsInv(s: State, events: seq<Event>, build: Builder)
    requires Inv(s, build) && Run(s, events, build).Some?
    ensures Inv(Run(s, events, build).value, build)
    decreases |events|
  {
    if events != [] {
      StepKeepsInv(s, events[0], build);
      RunKeepsInv(Next(s, events[0], build).value, events[1..], build);
    }
  }

  lemma ReachedInv(s: State, build: Builder)
    requires Reached(s, build)
    ensures Inv(s, build)
  {
    var defs, svcs, events :| Run(Initial(defs, svcs), events, build) == Some(s);
    RunKeepsInv(Initial(defs, svcs), events, build);
  }

  /** Once a recompute has listed both since the last change and published, the table is
      the pure build of the cache. At rest this is so unless the last recompute could not
      list. */
  lemma QuiescentCoherent(s: State, valid: URL -> bool)
    requires Reached(s, RouteBuilder(valid))
    ensures s.settled ==> s.table == Build(s.defs, s.svcs, valid)
    ensures Started(s) && Quiescent(s) ==> s.settled || s.lastFailed
  {
    ReachedInv(s, RouteBuilder(valid));
  }

  lemma StepStaysSettled(s: State, e: Event, build: Builder)
    requires SettledSource(s) && s.settled && Next(s, e, build).Some?
    requires !e.ChangeDefinitions? && !e.ChangeServices?
    ensures Next(s, e, build).value.settled
  {
  }

  /** Only a change of the cache ends that: recomputes, failing or not, keep it. */
  lemma {:induction false} SettledStays(s: State, events: seq<Event>, build: Builder)
    requires Inv(s, build) && s.settled && Run(s, events, build).Some?
    requires forall e | e in events :: !e.ChangeDefinitions? && !e.ChangeServices?
    ensures Run(s, events, build).value.settled
    decreases |events|
  {
    if events != [] {
      assert events[0] in events;
      StepKeepsInv(s, events[0], build);
      StepStaysSettled(s, events[0], build);
      SettledStays(Next(s, events[0], build).value, events[1..], build);
    }
  }

  /** Lists have been published exactly when some recompute got that far. */
  lemma {:induction false} PublishedIff(s: State, events: seq<Event>, build: Builder)
    requires Run(s, events, build).Some?
    ensures Run(s, events, build).value.source.Some? <==> s.source.Some? || Publish in events
    decreases |events|
  {
    if events != [] {
      OnlyPublish(s, events[0], build);
      PublishedIff(Next(s, events[0], build).value, events[1..], build);
      assert events == [events[0]] + events[1..];
    }
  }

  lemma OnlyPublish(s: State, e: Event, build: Builder)
    requires Next(s, e, build).Some?
    ensures Next(s, e, build).value.source.Some? <==> s.source.Some? || e == Publish
  {
  }

  /** Once the gateway is ready, it serves the build of lists it has read exactly when some
      recompute has published; short of that the very recompute that readiness waited for
      could not list, and it serves nothing. Later failures do not matter. */
  lemma ReadyMeansPublished(defs: seq<CatalogDef>, svcs: seq<Service>, events: seq<Event>, s: State, build: Builder)
    requires Run(Initial(defs, svcs), events, build) == Some(s) && s.stage.Ready?
    ensures s.source.Some? <==> Publish in events
    ensures Publish in events || s.firstFailed
    ensures s.table == if s.source.Some? then build(s.source.value.0, s.source.value.1) else map[]
  {
    PublishedIff(Initial(defs, svcs), events, build);
    assert Reached(s, build);
    ReachedInv(s, build);
  }

  // ---------- Once the cache stops changing, the watcher comes to rest

  /** The watcher's own steps, without failing lists. */
  predicate Internal(e: Event) {
    e.Deliver? || e.Fire? || e.Lock? || e.ListDefinitions? || e.ListServices? || e.Publish?
  }

  function Work(s: State): nat {
    6 * s.pending + (if TimerArmed(s) then 5 else 0) + 4 * (s.waiting + if s.initialWaiting then 1 else 0)
    + match s.running
      case None => 0
      case Some(r) => if r.defs.None? then 3 else if r.svcs.None? then 2 else 1
  }

  lemma InternalStepWorks(s: State, e: Event, build: Builder)
    requires OneTimer(s) && ListedInOrder(s) && Internal(e) && Next(s, e, build).Some?
    ensures Work(Next(s, e, build).value) < Work(s)
  {
    var t := Next(s, e, build).value;
    if e.Deliver? {
      assert t.pending == s.pending - 1 && TimerArmed(t);
    } else if e.Fire? {
      assert TimerArmed(s) && !TimerArmed(t);
    } else {
      RecomputeWorks(s, e, build);
    }
  }

  lemma RecomputeWorks(s: State, e: Event, build: Builder)
    requires ListedInOrder(s) && Internal(e) && !e.Deliver? && !e.Fire? && Next(s, e, build).Some?
    ensures Work(Next(s, e, build).value) < Work(s)
  {
    var t := Next(s, e, build).value;
    assert t.timers == s.timers && t.debounce == s.debounce;
  }

  lemma InternalStepKeepsCache(s: State, e: Event, build: Builder)
    requires Internal(e) && Next(s, e, build).Some?
    ensures Next(s, e, build).value.defs == s.defs && Next(s, e, build).value.svcs == s.svcs
    ensures Started(s) ==> Started(Next(s, e, build).value)
  {
  }

  lemma InternalStepNotStale(s: State, e: Event, build: Builder)
    requires OneTimer(s) && Started(s) && Covered(s) && Internal(e) && Next(s, e, build).Some?
    ensures !LeftStale(Next(s, e, build).value)
  {
    var t := Next(s, e, build).value;
    if e.Deliver? {
      assert s.nextTimer in t.timers && t.timers[s.nextTimer].Armed?;
    } else if e.Publish? {
      StepKeepsCover(s, e, build);
      assert t.running.None? && !t.lastFailed;
    }
  }

  /** At rest with a change that no recompute has listed and published. */
  ghost predicate LeftStale(s: State) {
    Quiescent(s) && !s.settled
  }

  function NextInternal(s: State): Event {
    if s.running.Some? then
      if s.running.value.defs.None? then ListDefinitions
      else if s.running.value.svcs.None? then ListServices
      else Publish
    else if s.initialWaiting then Lock(true)
    else if s.waiting > 0 then Lock(false)
    else if s.pending > 0 then Deliver
    else if TimerArmed(s) then Fire(s.debounce.value)
    else Deliver
  }

  /** Nothing is ever stuck: short of quiescence, an internal step is enabled. */
  lemma NeverStuck(s: State, build: Builder)
    requires Inv(s, build) && !Quiescent(s)
    ensures Internal(NextInternal(s)) && Next(s, NextInternal(s), build).Some?
  {
  }

  /** Every run of internal steps is bounded by the work at hand. */
  lemma {:induction false} InternalRunsEnd(s: State, events: seq<Event>, build: Builder)
    requires Inv(s, build) && Run(s, events, build).Some?
    requires forall e | e in events :: Internal(e)
    ensures |events| + Work(Run(s, events, build).value) <= Work(s)
    ensures var t := Run(s, events, build).value;
            t.defs == s.defs && t.svcs == s.svcs && (Started(s) ==> Started(t) && (!LeftStale(s) ==> !LeftStale(t)))
    decreases |events|
  {
    if events != [] {
      assert events[0] in events;
      InternalStepWorks(s, events[0], build);
      InternalStepKeepsCache(s, events[0], build);
      StepKeepsInv(s, events[0], build);
      if Started(s) && !LeftStale(s) {
        InternalStepNotStale(s, events[0], build);
      }
      InternalRunsEnd(Next(s, events[0], build).value, events[1..], build);
    }
  }

  /** Eventual coherence: whatever internal steps are taken until none is left, the table
      ends up as the build of the cache, unless the start was already at rest and behind. */
  lemma ComesToRestCoherent(s: State, events: seq<Event>, valid: URL -> bool)
    requires Reached(s, RouteBuilder(valid)) && Started(s) && !LeftStale(s) && Run(s, events, RouteBuilder(valid)).Some?
    requires forall e | e in events :: Internal(e)
    requires var t := Run(s, events, RouteBuilder(valid)).value;
             forall e | Internal(e) :: Next(t, e, RouteBuilder(valid)).None?
    ensures var t := Run(s, events, RouteBuilder(valid)).value;
            |events| <= Work(s) && Quiescent(t) && t.table == Build(s.defs, s.svcs, valid)
  {
    var t := Run(s, events, RouteBuilder(valid)).value;
    ReachedInv(s, RouteBuilder(valid));
    InternalRunsEnd(s, events, RouteBuilder(valid));
    RunKeepsInv(s, events, RouteBuilder(valid));
    if !Quiescent(t) {
      NeverStuck(t, RouteBuilder(valid));
    }
  }

  lemma RunFirst(s: State, e: Event, rest: seq<Event>, build: Builder)
    requires Next(s, e, build).Some?
    ensures Run(s, [e] + rest, build) == Run(Next(s, e, build).value, rest, build)
  {
  }

  /** A start whose first recompute cannot list. */
  const FAILED_START: seq<Event> :=
    [WatchDefinitions(0)] + ([WatchServices(0)] + ([Lock(true)] + ([ListFails] + ([CloseInitialSync] + []))))

  /** That exception is real too: readiness follows a first recompute that failed, so the
      gateway can serve before its table is populated. */
  lemma ReadyUnpublished(defs: seq<CatalogDef>, svcs: seq<Service>, build: Builder)
    ensures var t := Run(Initial(defs, svcs), FAILED_START, build);
            t.Some? && t.value.stage.Ready? && t.value.source.None? && t.value.table == map[]
  {
    var s := Initial(defs, svcs);
    var s1 := Next(s, WatchDefinitions(0), build).value;
    var s2 := Next(s1, WatchServices(0), build).value;
    var s3 := Next(s2, Lock(true), build).value;
    var s4 := Next(s3, ListFails, build).value;
    RunFirst(s, WatchDefinitions(0),
             [WatchServices(0)] + ([Lock(true)] + ([ListFails] + ([CloseInitialSync] + []))), build);
    RunFirst(s1, WatchServices(0), [Lock(true)] + ([ListFails] + ([CloseInitialSync] + [])), build);
    RunFirst(s2, Lock(true), [ListFails] + ([CloseInitialSync] + []), build);
    RunFirst(s3, ListFails, [CloseInitialSync] + [], build);
    RunFirst(s4, CloseInitialSync, [], build);
  }

  /** A change whose recompute cannot list. */
  function FailedRecompute(s: State, defs: seq<CatalogDef>): seq<Event> {
    [ChangeDefinitions(defs)] + ([Deliver] + ([Fire(s.nextTimer)] + ([Lock(false)] + ([ListFails] + []))))
  }

  /** The exception is real: a recompute that cannot list is not retried, so any change
      can leave the watcher at rest with the old table. */
  lemma FailedListIsNotRetried(s: State, defs: seq<CatalogDef>, build: Builder)
    requires Reached(s, build) && Started(s) && Quiescent(s)
    ensures var t := Run(s, FailedRecompute(s, defs), build);
            t.Some? && LeftStale(t.value) && t.value.defs == defs && t.value.table == s.table
  {
    ReachedInv(s, build);
    var s1 := Next(s, ChangeDefinitions(defs), build).value;
    RunFirst(s, ChangeDefinitions(defs),
             [Deliver] + ([Fire(s.nextTimer)] + ([Lock(false)] + ([ListFails] + []))), build);
    AfterChange(s1, build);
  }

  lemma AfterChange(s: State, build: Builder)
    requires OneTimer(s) && s.pending == 1 && Started(s) && !s.settled
    requires s.waiting == 0 && !s.initialWaiting && s.running.None?
    requires forall t | t in s.timers :: !s.timers[t].Armed?
    ensures var t := Run(s, [Deliver] + ([Fire(s.nextTimer)] + ([Lock(false)] + ([ListFails] + []))), build);
            t.Some? && LeftStale(t.value) && t.value.defs == s.defs && t.value.table == s.table
  {
    var s1 := Next(s, Deliver, build).value;
    var s2 := Next(s1, Fire(s.nextTimer), build).value;
    assert forall t | t in s2.timers :: !s2.timers[t].Armed?;
    var s3 := Next(s2, Lock(false), build).value;
    RunFirst(s, Deliver, [Fire(s.nextTimer)] + ([Lock(false)] + ([ListFails] + [])), build);
    RunFirst(s1, Fire(s.nextTimer), [Lock(false)] + ([ListFails] + []), build);
    RunFirst(s2, Lock(false), [ListFails] + [], build);
    RunFirst(s3, ListFails, [], build);
  }
}
