/** The recording format of the replay engine (src/services/player.js) and
    what one tick does with it, as pure definitions: how a single event is
    dispatched to the target registry and to the options' hook, and how a
    tick walks the event cursor forward within its time budget. */
module PlayerSpec {
  import opened Wrappers

  /** An opaque session-state blob, produced by options.dumpState() and
      consumed by options.loadState(). */
  type Snapshot(==, !new)

  /** A live replay-capable object held by the target registry. */
  type Target(==, !new)

  /** A value thrown by a collaborator. */
  type Exception(==, !new)

  /** One recorded event `[delta, targetId, op, payload]`; `delta` is the time
      in milliseconds since the previous event. */
  datatype Event = Event(delta: int, target: string, op: string, payload: Option<Snapshot>)

  /** A recording: its events, and the URL of the audio track if any. */
  datatype Recording = Recording(events: seq<Event>, audioUrl: Option<string>)

  /** The target registry: target id to live object. */
  type Registry = map<string, Target>

  /** How a call into a collaborator ended: it returned, or it threw. */
  datatype Completion = Normal | Abrupt(ex: Exception)

  /** How options.loadState ended: it returned, having registered `targets`,
      or it threw. */
  datatype LoadOutcome = Registered(targets: Registry) | LoadFailed(ex: Exception)

  /** The collaborators handed to `start`: options.loadState, the
      replayEvent method of the targets the session registers, and the
      optional options.replayEvent hook. */
  datatype Options = Options(
    loadState: Option<Snapshot> -> LoadOutcome,
    targetReplay: (Target, Event) -> Completion,
    replayEvent: Option<Event -> Completion>)

  /** One observable call made by the engine, in the order it is made: calls
      into the registry, the options, the targets and the audio player, and
      the signals it emits. A call that throws is recorded all the same. */
  datatype Effect =
    | RegistryCleared
    | StateLoaded(state: Option<Snapshot>)
    | StateDumped(dumped: Snapshot)
    | UpdateEmitted
    /** registry.getTarget(event[1]), made while dispatching `event`. */
    | TargetLooked(event: Event, found: Option<Target>)
    | TargetReplayed(target: Target, event: Event)
    | HookReplayed(event: Event)
    | AudioPlayed
    | AudioPaused
    | DoneEmitted

  /** An event with the empty target id and op '0' resets the whole session. */
  predicate IsGlobalReset(e: Event) {
    e.target == "" && e.op == "0"
  }

  /** registry.getTarget(id). */
  function Lookup(registry: Registry, id: string): (r: Option<Target>)
    ensures r.Some? <==> id in registry
    ensures r.Some? ==> r.value == registry[id]
  {
    if id in registry then Some(registry[id]) else None
  }

  /** The result of dispatching one event: the registry afterwards, the log of
      calls extended with the calls the dispatch made, and the exception that
      ended the dispatch if one did. */
  datatype Step = Step(registry: Registry, log: seq<Effect>, thrown: Option<Exception>)

  /** The body of the `try` block of playTick for one event, after the calls
      `log`: a global reset clears the registry and reloads the state first;
      then the event goes to the registered target, if any, and to the
      options' hook, if any. */
  function Dispatch(opts: Options, registry: Registry, e: Event, log: seq<Effect>): Step {
    if IsGlobalReset(e) then
      var cleared := log + [RegistryCleared] + [StateLoaded(e.payload)];
      match opts.loadState(e.payload)
      case LoadFailed(ex) => Step(map[], cleared, Some(ex))
      // The registry was cleared, then loadState registered `targets`.
      case Registered(targets) => Route(opts, targets, e, cleared + [UpdateEmitted])
    else
      Route(opts, registry, e, log)
  }

  /** The target lookup and the target's replayEvent, then the hook. */
  function Route(opts: Options, registry: Registry, e: Event, log: seq<Effect>): Step {
    var found := Lookup(registry, e.target);
    var looked := log + [TargetLooked(e, found)];
    if found.None? then
      Hook(opts, registry, e, looked)
    else
      var replayed := looked + [TargetReplayed(found.value, e)];
      match opts.targetReplay(found.value, e)
      case Abrupt(ex) => Step(registry, replayed, Some(ex))
      case Normal => Hook(opts, registry, e, replayed)
  }

  /** options.replayEvent, when it is a function. */
  function Hook(opts: Options, registry: Registry, e: Event, log: seq<Effect>): Step {
    match opts.replayEvent
    case None => Step(registry, log, None)
    case Some(hook) =>
      match hook(e)
      case Abrupt(ex) => Step(registry, log + [HookReplayed(e)], Some(ex))
      case Normal => Step(registry, log + [HookReplayed(e)], None)
  }

  /** The per-event dispatch a tick applies: registry, event and log in, step
      out. */
  type Dispatcher = (Registry, Event, seq<Effect>) -> Step

  /** The dispatch of the options handed to `start`. */
  function DispatchWith(opts: Options): Dispatcher {
    (registry, e, log) => Dispatch(opts, registry, e, log)
  }

  /** Where a tick's walk over the events ends: the cursor reached, the time
      accumulated in `timeElapsed`, the registry, the log of calls, and the
      exception that stopped the walk if one did. */
  datatype Walk = Walk(cursor: nat, elapsed: int, registry: Registry, log: seq<Effect>, thrown: Option<Exception>)

  /** The consumption loop of playTick, from `cursor` with `elapsed` already
      accumulated: an event is consumed when the accumulated time plus its
      delta is at most `playUntil`; its delta is accumulated before it is
      dispatched; a dispatch that throws stops the walk on that event. */
  function Consume(events: seq<Event>, cursor: nat, elapsed: int, playUntil: int, registry: Registry,
                   log: seq<Effect>, dispatch: Dispatcher): (w: Walk)
    requires cursor <= |events|
    ensures cursor <= w.cursor <= |events|
    ensures w.thrown.Some? ==> w.cursor < |events|
    decreases |events| - cursor
  {
    if cursor == |events| || elapsed + events[cursor].delta > playUntil then
      Walk(cursor, elapsed, registry, log, None)
    else
      var s := dispatch(registry, events[cursor], log);
      if s.thrown.Some? then
        Walk(cursor, elapsed + events[cursor].delta, s.registry, s.log, s.thrown)
      else
        Consume(events, cursor + 1, elapsed + events[cursor].delta, playUntil, s.registry, s.log, dispatch)
  }

  /** The sum of the deltas of `events`. */
  function DeltaSum(events: seq<Event>): int {
    if events == [] then 0 else events[0].delta + DeltaSum(events[1..])
  }

  /** The time at which event `i` falls due, counted from the event at `from`
      (which is the first one the tick looks at). */
  function DueAt(events: seq<Event>, from: nat, i: nat): int
    requires from <= i < |events|
  {
    DeltaSum(events[from..i + 1])
  }

  /** The event one call hands to options.replayEvent, if it is such a call. */
  function HookedBy(x: Effect): seq<Event> {
    if x.HookReplayed? then [x.event] else []
  }

  /** The events handed to options.replayEvent, in call order. */
  function Hooked(log: seq<Effect>): seq<Event> {
    if log == [] then [] else Hooked(log[..|log| - 1]) + HookedBy(log[|log| - 1])
  }

  /** The event a call was a target lookup for, if it is such a call. */
  function LookedBy(x: Effect): seq<Event> {
    if x.TargetLooked? then [x.event] else []
  }

  /** The events whose target was looked up, in call order. */
  function Looked(log: seq<Effect>): seq<Event> {
    if log == [] then [] else Looked(log[..|log| - 1]) + LookedBy(log[|log| - 1])
  }

  /** The number of 'done' signals in the log. */
  function DoneCount(log: seq<Effect>): nat {
    if log == [] then 0 else DoneCount(log[..|log| - 1]) + (if log[|log| - 1] == DoneEmitted then 1 else 0)
  }

  // ---------------------------------------------------------------------
  // Dispatch of one event

  /** On a global reset the registry is cleared and the state reloaded before
      the target lookup, and the lookup sees exactly what loadState
      registered. */
  lemma ResetBeforeLookup(opts: Options, registry: Registry, e: Event, log: seq<Effect>)
    requires IsGlobalReset(e)
    ensures var s := Dispatch(opts, registry, e, log);
      var n := |log|;
      && |s.log| >= n + 2
      && s.log[..n] == log && s.log[n] == RegistryCleared && s.log[n + 1] == StateLoaded(e.payload)
      && (opts.loadState(e.payload).LoadFailed? ==>
            && s.log == log + [RegistryCleared, StateLoaded(e.payload)] && s.registry == map[]
            && s.thrown == Some(opts.loadState(e.payload).ex))
      && (opts.loadState(e.payload).Registered? ==>
            var targets := opts.loadState(e.payload).targets;
            && |s.log| >= n + 4 && s.log[n + 2] == UpdateEmitted
            && s.log[n + 3] == TargetLooked(e, Lookup(targets, ""))
            && s.registry == targets)
  {
  }

  /** A global reset does not depend on the registry it finds: no target of
      the previous session can receive it. */
  lemma ResetIgnoresStaleRegistry(opts: Options, r1: Registry, r2: Registry, e: Event, log: seq<Effect>)
    requires IsGlobalReset(e)
    ensures Dispatch(opts, r1, e, log) == Dispatch(opts, r2, e, log)
  {
  }

  /** Any other event leaves the registry as it found it, and its first call
      is the target lookup. */
  lemma NonResetKeepsRegistry(opts: Options, registry: Registry, e: Event, log: seq<Effect>)
    requires !IsGlobalReset(e)
    ensures var s := Dispatch(opts, registry, e, log);
      && s.registry == registry && |s.log| > |log| && s.log[..|log|] == log
      && s.log[|log|] == TargetLooked(e, Lookup(registry, e.target))
  {
  }

  /** Appending a call other than the hook and the 'done' signal to the log
      changes neither view of it. */
  lemma SnocQuiet(log: seq<Effect>, x: Effect)
    requires !x.HookReplayed? && x != DoneEmitted
    ensures Hooked(log + [x]) == Hooked(log) && DoneCount(log + [x]) == DoneCount(log)
  {
    assert (log + [x])[..|log|] == log;
  }

  /** Appending a call of the hook adds its event to the hooked events. */
  lemma SnocHook(log: seq<Effect>, e: Event)
    ensures Hooked(log + [HookReplayed(e)]) == Hooked(log) + [e]
    ensures DoneCount(log + [HookReplayed(e)]) == DoneCount(log)
  {
    assert (log + [HookReplayed(e)])[..|log|] == log;
  }

  /** A dispatch only appends to the log. */
  lemma DispatchExtendsLog(opts: Options, registry: Registry, e: Event, log: seq<Effect>)
    ensures log <= Dispatch(opts, registry, e, log).log
  {
  }

  /** Every dispatch of `dispatch` only appends to the log. */
  ghost predicate AppendsOnly(dispatch: Dispatcher) {
    forall registry, e, log :: log <= dispatch(registry, e, log).log
  }

  /** The dispatch of any options only appends to the log. */
  lemma DispatchWithAppendsOnly(opts: Options)
    ensures AppendsOnly(DispatchWith(opts))
  {
    forall registry, e, log
      ensures log <= DispatchWith(opts)(registry, e, log).log
    {
      DispatchExtendsLog(opts, registry, e, log);
    }
  }

  /** The 'done' signal is counted once and shows no hooked event. */
  lemma SnocDone(log: seq<Effect>)
    ensures Hooked(log + [DoneEmitted]) == Hooked(log)
    ensures DoneCount(log + [DoneEmitted]) == DoneCount(log) + 1
  {
    assert (log + [DoneEmitted])[..|log|] == log;
  }

  /** A view of the log: the events it shows, in order. */
  type View = seq<Effect> -> seq<Event>

  /** What one dispatch of `e` after the calls `log` adds to `view`: nothing
      or `e` once; `e` for sure when `hooked` holds and nothing threw; and
      nothing when `hooked` does not hold. */
  predicate AddsEvent(s: Step, log: seq<Effect>, e: Event, hooked: bool, view: View) {
    && (view(s.log) == view(log) || view(s.log) == view(log) + [e])
    && (!hooked ==> view(s.log) == view(log))
    && (hooked && s.thrown.None? ==> view(s.log) == view(log) + [e])
  }

  /** Every dispatch of `dispatch` adds to `view` as AddsEvent says. */
  ghost predicate DispatchAdds(dispatch: Dispatcher, hooked: bool, view: View) {
    forall registry, e, log :: AddsEvent(dispatch(registry, e, log), log, e, hooked, view)
  }

  /** Every dispatch of `dispatch` leaves the number of 'done' signals alone. */
  ghost predicate KeepsDone(dispatch: Dispatcher) {
    forall registry, e, log :: DoneCount(dispatch(registry, e, log).log) == DoneCount(log)
  }

  /** options.replayEvent, when present, is called once, whatever it then
      does: its event joins the hooked events even when it throws. */
  lemma HookHooks(opts: Options, registry: Registry, e: Event, log: seq<Effect>)
    ensures var s := Hook(opts, registry, e, log);
      AddsEvent(s, log, e, opts.replayEvent.Some?, Hooked) && DoneCount(s.log) == DoneCount(log)
    ensures opts.replayEvent.Some? ==> Hooked(Hook(opts, registry, e, log).log) == Hooked(log) + [e]
  {
    SnocHook(log, e);
  }

  /** The target lookup and the target's replayEvent hand nothing to the
      hook. */
  lemma RouteHooks(opts: Options, registry: Registry, e: Event, log: seq<Effect>)
    ensures var s := Route(opts, registry, e, log);
      AddsEvent(s, log, e, opts.replayEvent.Some?, Hooked) && DoneCount(s.log) == DoneCount(log)
  {
    var found := Lookup(registry, e.target);
    var looked := log + [TargetLooked(e, found)];
    SnocQuiet(log, TargetLooked(e, found));
    if found.None? {
      HookHooks(opts, registry, e, looked);
    } else {
      SnocQuiet(looked, TargetReplayed(found.value, e));
      HookHooks(opts, registry, e, looked + [TargetReplayed(found.value, e)]);
    }
  }

  /** options.replayEvent receives the event at most once per dispatch, and
      exactly once when the hook is present and nothing threw; a dispatch
      never emits 'done'. */
  lemma DispatchHooks(opts: Options, registry: Registry, e: Event, log: seq<Effect>)
    ensures var s := Dispatch(opts, registry, e, log);
      AddsEvent(s, log, e, opts.replayEvent.Some?, Hooked) && DoneCount(s.log) == DoneCount(log)
  {
    if IsGlobalReset(e) {
      var cleared := log + [RegistryCleared] + [StateLoaded(e.payload)];
      SnocQuiet(log, RegistryCleared);
      SnocQuiet(log + [RegistryCleared], StateLoaded(e.payload));
      SnocQuiet(cleared, UpdateEmitted);
      if opts.loadState(e.payload).Registered? {
        RouteHooks(opts, opts.loadState(e.payload).targets, e, cleared + [UpdateEmitted]);
      }
    } else {
      RouteHooks(opts, registry, e, log);
    }
  }

  /** The dispatch of any options hands each event to the hook as AddsEvent
      says, and never emits 'done'. */
  lemma DispatchWithHooksOnce(opts: Options)
    ensures DispatchAdds(DispatchWith(opts), opts.replayEvent.Some?, Hooked)
    ensures KeepsDone(DispatchWith(opts))
  {
    forall registry, e, log
      ensures var s := DispatchWith(opts)(registry, e, log);
        AddsEvent(s, log, e, opts.replayEvent.Some?, Hooked) && DoneCount(s.log) == DoneCount(log)
    {
      DispatchHooks(opts, registry, e, log);
    }
  }

  /** Routing delivers the event to its registered target: the lookup of
      its id comes first and the target's replayEvent call right after it;
      an event whose id is not registered reaches no target. */
  lemma RouteDelivers(opts: Options, registry: Registry, e: Event, log: seq<Effect>)
    ensures var s := Route(opts, registry, e, log);
      var n := |log|;
      && |s.log| > n && s.log[..n] == log && s.log[n] == TargetLooked(e, Lookup(registry, e.target))
      && (e.target in registry ==> |s.log| >= n + 2 && s.log[n + 1] == TargetReplayed(registry[e.target], e))
      && (e.target !in registry ==> forall i :: n <= i < |s.log| ==> !s.log[i].TargetReplayed?)
  {
  }

  /** Appending a call adds to the looked-up events only if it is a lookup. */
  lemma SnocLooked(log: seq<Effect>, x: Effect)
    ensures Looked(log + [x]) == Looked(log) + LookedBy(x)
  {
    assert (log + [x])[..|log|] == log;
  }

  /** The hook call looks nothing up. */
  lemma HookLooksNothing(opts: Options, registry: Registry, e: Event, log: seq<Effect>)
    ensures Looked(Hook(opts, registry, e, log).log) == Looked(log)
  {
    if opts.replayEvent.Some? {
      assert Hook(opts, registry, e, log).log == log + [HookReplayed(e)];
      SnocLooked(log, HookReplayed(e));
      assert LookedBy(HookReplayed(e)) == [];
    } else {
      assert Hook(opts, registry, e, log).log == log;
    }
  }

  /** The routing of an event looks up the target of that event, once. */
  lemma RouteLooksUp(opts: Options, registry: Registry, e: Event, log: seq<Effect>)
    ensures Looked(Route(opts, registry, e, log).log) == Looked(log) + [e]
  {
    var found := Lookup(registry, e.target);
    var looked := log + [TargetLooked(e, found)];
    SnocLooked(log, TargetLooked(e, found));
    if found.None? {
      HookLooksNothing(opts, registry, e, looked);
    } else {
      SnocLooked(looked, TargetReplayed(found.value, e));
      HookLooksNothing(opts, registry, e, looked + [TargetReplayed(found.value, e)]);
    }
  }

  /** One dispatch looks up the target of its event exactly once, unless it
      is a global reset whose loadState threw before the lookup. */
  lemma DispatchLooksUp(opts: Options, registry: Registry, e: Event, log: seq<Effect>)
    ensures IsGlobalReset(e) && opts.loadState(e.payload).LoadFailed? ==>
      Looked(Dispatch(opts, registry, e, log).log) == Looked(log)
    ensures !(IsGlobalReset(e) && opts.loadState(e.payload).LoadFailed?) ==>
      Looked(Dispatch(opts, registry, e, log).log) == Looked(log) + [e]
  {
    if IsGlobalReset(e) {
      var cleared := log + [RegistryCleared] + [StateLoaded(e.payload)];
      SnocLooked(log, RegistryCleared);
      SnocLooked(log + [RegistryCleared], StateLoaded(e.payload));
      assert Looked(cleared) == Looked(log);
      match opts.loadState(e.payload)
      case LoadFailed(_) =>
        assert Dispatch(opts, registry, e, log).log == cleared;
      case Registered(targets) =>
        SnocLooked(cleared, UpdateEmitted);
        assert Looked(cleared + [UpdateEmitted]) == Looked(log);
        RouteLooksUp(opts, targets, e, cleared + [UpdateEmitted]);
        assert Dispatch(opts, registry, e, log) == Route(opts, targets, e, cleared + [UpdateEmitted]);
    } else {
      RouteLooksUp(opts, registry, e, log);
      assert Dispatch(opts, registry, e, log) == Route(opts, registry, e, log);
    }
  }

  /** The dispatch of any options looks up each event's target at most once,
      and exactly once when nothing threw. */
  lemma DispatchWithLooksUpOnce(opts: Options)
    ensures DispatchAdds(DispatchWith(opts), true, Looked)
  {
    forall registry, e, log
      ensures AddsEvent(DispatchWith(opts)(registry, e, log), log, e, true, Looked)
    {
      DispatchLooksUp(opts, registry, e, log);
    }
  }

  // ---------------------------------------------------------------------
  // The walk of one tick

  lemma AppendAssoc<T>(a: seq<T>, b: seq<T>, c: seq<T>)
    ensures (a + b) + c == a + (b + c)
  {
  }

  lemma SliceSplit<T>(a: seq<T>, i: nat, j: nat, k: nat)
    requires i <= j <= k <= |a|
    ensures a[i..j] + a[j..k] == a[i..k]
  {
  }

  /** Showing the event at `cursor` and then the `m` events after it is
      showing the `m + 1` events from `cursor`. */
  lemma ShownStep(shown: seq<Event>, events: seq<Event>, cursor: nat, m: nat)
    requires cursor + 1 + m <= |events|
    ensures (shown + [events[cursor]]) + events[cursor + 1..cursor + 1 + m] == shown + events[cursor..cursor + 1 + m]
  {
    AppendAssoc(shown, [events[cursor]], events[cursor + 1..cursor + 1 + m]);
    assert events[cursor..cursor + 1] == [events[cursor]];
    SliceSplit(events, cursor, cursor + 1, cursor + 1 + m);
  }

  /** Splitting off the first delta of a slice. */
  lemma DeltaSumStep(events: seq<Event>, c: nat, j: nat)
    requires c < j <= |events|
    ensures DeltaSum(events[c..j]) == events[c].delta + DeltaSum(events[c + 1..j])
  {
    assert events[c..j][1..] == events[c + 1..j];
  }

  /** The time a tick accumulates is the sum of the deltas it consumed, plus
      the delta of the event that threw, if one did. */
  lemma {:induction false} ConsumeElapsed(events: seq<Event>, cursor: nat, elapsed: int, playUntil: int, registry: Registry,
                                         log: seq<Effect>, dispatch: Dispatcher)
    requires cursor <= |events|
    ensures var w := Consume(events, cursor, elapsed, playUntil, registry, log, dispatch);
      w.elapsed == elapsed + DeltaSum(events[cursor..w.cursor]) + (if w.thrown.Some? then events[w.cursor].delta else 0)
    decreases |events| - cursor
  {
    assert events[cursor..cursor] == [];
    if cursor < |events| && elapsed + events[cursor].delta <= playUntil {
      var s := dispatch(registry, events[cursor], log);
      if s.thrown.None? {
        var rest := Consume(events, cursor + 1, elapsed + events[cursor].delta, playUntil, s.registry, s.log, dispatch);
        ConsumeElapsed(events, cursor + 1, elapsed + events[cursor].delta, playUntil, s.registry, s.log, dispatch);
        DeltaSumStep(events, cursor, rest.cursor);
      }
    }
  }

  /** The inclusive boundary: every event a tick consumes, and the one that
      threw, was due (its accumulated time is at most playUntil); a tick that
      ends early without an exception ends on the first event not yet due. */
  lemma {:induction false} ConsumeBoundary(events: seq<Event>, cursor: nat, elapsed: int, playUntil: int, registry: Registry,
                                     log: seq<Effect>, dispatch: Dispatcher)
    requires cursor <= |events|
    ensures var w := Consume(events, cursor, elapsed, playUntil, registry, log, dispatch);
      && (forall i :: cursor <= i < w.cursor ==> elapsed + DueAt(events, cursor, i) <= playUntil)
      && (w.thrown.Some? ==> elapsed + DueAt(events, cursor, w.cursor) <= playUntil)
      && (w.thrown.None? && w.cursor < |events| ==> elapsed + DueAt(events, cursor, w.cursor) > playUntil)
    decreases |events| - cursor
  {
    if cursor < |events| {
      DeltaSumStep(events, cursor, cursor + 1);
      assert events[cursor + 1..cursor + 1] == [];
    }
    if cursor < |events| && elapsed + events[cursor].delta <= playUntil {
      var d := events[cursor].delta;
      var s := dispatch(registry, events[cursor], log);
      if s.thrown.None? {
        var w := Consume(events, cursor + 1, elapsed + d, playUntil, s.registry, s.log, dispatch);
        ConsumeBoundary(events, cursor + 1, elapsed + d, playUntil, s.registry, s.log, dispatch);
        assert Consume(events, cursor, elapsed, playUntil, registry, log, dispatch) == w;
        forall i | cursor <= i < w.cursor
          ensures elapsed + DueAt(events, cursor, i) <= playUntil
        {
          DeltaSumStep(events, cursor, i + 1);
          if i > cursor {
            assert elapsed + d + DueAt(events, cursor + 1, i) <= playUntil;
          }
        }
        if w.cursor < |events| {
          DeltaSumStep(events, cursor, w.cursor + 1);
        }
      }
    }
  }

  /** A tick's walk only appends to the log: the calls made before it, and
      those of each event it dispatched, stand. */
  lemma {:induction false} ConsumeExtendsLog(events: seq<Event>, cursor: nat, elapsed: int, playUntil: int, registry: Registry,
                                            log: seq<Effect>, dispatch: Dispatcher)
    requires cursor <= |events|
    requires AppendsOnly(dispatch)
    ensures log <= Consume(events, cursor, elapsed, playUntil, registry, log, dispatch).log
    decreases |events| - cursor
  {
    if cursor < |events| && elapsed + events[cursor].delta <= playUntil {
      var e := events[cursor];
      var s := dispatch(registry, e, log);
      assert log <= s.log;
      if s.thrown.None? {
        ConsumeExtendsLog(events, cursor + 1, elapsed + e.delta, playUntil, s.registry, s.log, dispatch);
      }
    }
  }

  /** A tick's walk never emits 'done': that signal is the tick's own. */
  lemma {:induction false} ConsumeEmitsNoDone(events: seq<Event>, cursor: nat, elapsed: int, playUntil: int, registry: Registry,
                                             log: seq<Effect>, dispatch: Dispatcher)
    requires cursor <= |events|
    requires KeepsDone(dispatch)
    ensures DoneCount(Consume(events, cursor, elapsed, playUntil, registry, log, dispatch).log) == DoneCount(log)
    decreases |events| - cursor
  {
    if cursor < |events| && elapsed + events[cursor].delta <= playUntil {
      var e := events[cursor];
      var s := dispatch(registry, e, log);
      assert DoneCount(s.log) == DoneCount(log);
      if s.thrown.None? {
        ConsumeEmitsNoDone(events, cursor + 1, elapsed + e.delta, playUntil, s.registry, s.log, dispatch);
      }
    }
  }

  /** Without a hook in the options, a tick hands nothing to it. */
  lemma {:induction false} ConsumeWithoutHook(events: seq<Event>, cursor: nat, elapsed: int, playUntil: int, registry: Registry,
                                             log: seq<Effect>, dispatch: Dispatcher, view: View)
    requires cursor <= |events|
    requires DispatchAdds(dispatch, false, view)
    ensures view(Consume(events, cursor, elapsed, playUntil, registry, log, dispatch).log) == view(log)
    decreases |events| - cursor
  {
    if cursor < |events| && elapsed + events[cursor].delta <= playUntil {
      var e := events[cursor];
      var s := dispatch(registry, e, log);
      assert AddsEvent(s, log, e, false, view);
      if s.thrown.None? {
        ConsumeWithoutHook(events, cursor + 1, elapsed + e.delta, playUntil, s.registry, s.log, dispatch, view);
      }
    }
  }

  /** In-order, single dispatch: when every dispatch shows its event in
      `view` at most once, and exactly once when nothing threw (the hook
      calls, or the target lookups), a tick's walk shows a prefix of the
      events from the cursor, in recording order, each once: every consumed
      event, and at most the event that threw. */
  lemma {:induction false} ConsumeHooks(events: seq<Event>, cursor: nat, elapsed: int, playUntil: int, registry: Registry,
                                       log: seq<Effect>, dispatch: Dispatcher, view: View)
    requires cursor <= |events|
    requires DispatchAdds(dispatch, true, view)
    ensures var w := Consume(events, cursor, elapsed, playUntil, registry, log, dispatch);
      var n := |view(w.log)| - |view(log)|;
      && w.cursor - cursor <= n <= w.cursor - cursor + (if w.thrown.Some? then 1 else 0)
      && cursor + n <= |events|
      && view(w.log) == view(log) + events[cursor..cursor + n]
    decreases |events| - cursor
  {
    if cursor == |events| || elapsed + events[cursor].delta > playUntil {
      assert events[cursor..cursor] == [];
    } else {
      var e := events[cursor];
      var s := dispatch(registry, e, log);
      assert AddsEvent(s, log, e, true, view);
      if s.thrown.Some? {
        assert Consume(events, cursor, elapsed, playUntil, registry, log, dispatch)
            == Walk(cursor, elapsed + e.delta, s.registry, s.log, s.thrown);
        assert events[cursor..cursor + 1] == [e];
        assert events[cursor..cursor] == [];
      } else {
        var w := Consume(events, cursor + 1, elapsed + e.delta, playUntil, s.registry, s.log, dispatch);
        ConsumeHooks(events, cursor + 1, elapsed + e.delta, playUntil, s.registry, s.log, dispatch, view);
        assert Consume(events, cursor, elapsed, playUntil, registry, log, dispatch) == w;
        var m := |view(w.log)| - |view(s.log)|;
        ShownStep(view(log), events, cursor, m);
      }
    }
  }

  /** The global-reset ordering example: a reset followed at the same instant
      by an event for "t1" reaches the "t1" that loadState registered. */
  lemma ResetPopulatesRegistryBeforeTargetEvent(opts: Options, s: Snapshot, p: Option<Snapshot>, registry: Registry,
                                                playUntil: int)
    requires opts.loadState(Some(s)).Registered? && "t1" in opts.loadState(Some(s)).targets
    requires "" !in opts.loadState(Some(s)).targets
    requires opts.replayEvent.None?
    requires forall t: Target, e: Event :: opts.targetReplay(t, e) == Normal
    requires playUntil >= 0
    ensures var events := [Event(0, "", "0", Some(s)), Event(0, "t1", "op", p)];
      var w := Consume(events, 0, 0, playUntil, registry, [], DispatchWith(opts));
      && w.cursor == 2 && w.thrown.None?
      && w.log == [RegistryCleared, StateLoaded(Some(s)), UpdateEmitted, TargetLooked(events[0], None),
                   TargetLooked(events[1], Some(opts.loadState(Some(s)).targets["t1"])),
                   TargetReplayed(opts.loadState(Some(s)).targets["t1"], events[1])]
  {
    var events := [Event(0, "", "0", Some(s)), Event(0, "t1", "op", p)];
    var targets := opts.loadState(Some(s)).targets;
    var s0 := Dispatch(opts, registry, events[0], []);
    assert s0.registry == targets && s0.thrown.None?;
    assert s0.log == [RegistryCleared, StateLoaded(Some(s)), UpdateEmitted, TargetLooked(events[0], None)];
    var s1 := Dispatch(opts, targets, events[1], s0.log);
    assert s1.thrown.None?;
    assert s1.log == s0.log + [TargetLooked(events[1], Some(targets["t1"])), TargetReplayed(targets["t1"], events[1])];
    assert Consume(events, 1, 0, playUntil, targets, s0.log, DispatchWith(opts)) == Walk(2, 0, targets, s1.log, None);
  }
}
