/** The `state` record of src/services/player.js and its operations (start,
    pause, resume, stop and the periodic tick) as functions from the state
    before a call to the state after it. The class in player.dfy performs
    the same operations in place and is proved to agree with these. */
module Playback {
  import opened Wrappers
  import opened PlayerSpec

  /** The rejection reason of `start` while playback is in progress. */
  const AlreadyPlaying := "playback is already in progress"

  /** The rejection reason of `pause` and `resume` while playback is not in
      progress. */
  const NotPlaying := "playback is not in progress"

  /** How the promise returned by an operation settles; `Raised` is an
      exception thrown by a collaborator that escapes the operation. */
  datatype Settled = Resolved | Rejected(reason: string) | Raised(ex: Exception)

  /** A recording has audio when its audioUrl is a non-empty string. */
  predicate HasAudio(rec: Recording) {
    rec.audioUrl.Some? && rec.audioUrl.value != ""
  }

  /** $interval.cancel(handle): a null handle cancels nothing. */
  function CancelTimer(timers: set<nat>, handle: Option<nat>): (r: set<nat>)
    ensures handle.Some? ==> handle.value !in r
    ensures r <= timers && timers - r <= (if handle.Some? then {handle.value} else {})
  {
    if handle.Some? then timers - {handle.value} else timers
  }

  /** The calls `pause` makes when it does pause. */
  function PauseCalls(audio: Option<string>, dumped: Snapshot): seq<Effect> {
    (if audio.Some? then [AudioPaused] else []) + [StateDumped(dumped)]
  }

  /** The virtual-time budget of a tick: the audio position, or the wall-clock
      time since `startTime`, less what was already played. */
  function PlayUntil(hasAudio: bool, now: int, audioMs: int, startTime: int, playOffset: int): int {
    if hasAudio then audioMs - playOffset else now - startTime - playOffset
  }

  /** The service's state. Beside the fields of the source's `state` record
      it holds the target registry, the interval timers still firing (with
      the handle the next one gets), and the log of every call and signal
      made so far. The audio player is named by its URL. */
  datatype PlayState = PlayState(
    options: Option<Options>,
    recording: Option<Recording>,
    startTime: int,
    isPlaying: bool,
    isPaused: bool,
    playInterval: Option<nat>,
    playOffset: int,
    playCursor: nat,
    resumeState: Option<Snapshot>,
    audio: Option<string>,
    exception: Option<Exception>,
    registry: Registry,
    timers: set<nat>,
    nextTimer: nat,
    trace: seq<Effect>)

  /** The state when the service is created; the source leaves startTime,
      playOffset and playCursor null or undefined, which are 0 here. */
  const Initial := PlayState(None, None, 0, false, false, None, 0, 0, None, None, None, map[], {}, 0, [])

  /** What every reachable state satisfies: an armed timer means playing and
      not paused, and is live; paused means playing with no armed timer;
      playing means there are options and a recording with the cursor within
      it; the audio player is only held while playing; handles are fresh. */
  predicate Inv(s: PlayState) {
    && (s.playInterval.Some? ==> s.isPlaying && !s.isPaused && s.playInterval.value in s.timers)
    && (s.isPaused ==> s.isPlaying && s.playInterval.None?)
    && (s.isPlaying ==> s.options.Some? && s.recording.Some? && s.playCursor <= |s.recording.value.events|)
    && (!s.isPlaying ==> s.audio.None?)
    && (forall t :: t in s.timers ==> t < s.nextTimer)
  }

  /** The state after an operation, and how its promise settles. */
  datatype Outcome = Outcome(state: PlayState, settled: Settled)

  /** $interval(playTick, 20): a fresh timer, stored as the current one. */
  function Arm(s: PlayState): PlayState {
    s.(playInterval := Some(s.nextTimer), timers := s.timers + {s.nextTimer}, nextTimer := s.nextTimer + 1)
  }

  /** service.start */
  function Start(s: PlayState, rec: Recording, opts: Options, now: int): (o: Outcome)
  {
    if s.isPlaying then
      Outcome(s, Rejected(AlreadyPlaying))
    else
      var armed := Arm(s.(options := Some(opts), recording := Some(rec), startTime := now,
                          isPlaying := true, isPaused := false)).(playOffset := 0, playCursor := 0);
      if HasAudio(rec) then
        Outcome(armed.(audio := rec.audioUrl, trace := armed.trace + [AudioPlayed]), Resolved)
      else
        Outcome(armed, Resolved)
  }

  /** service.pause; `dumped` is what options.dumpState() returns. */
  function Pause(s: PlayState, dumped: Snapshot): (o: Outcome)
  {
    if !s.isPlaying then
      Outcome(s, Rejected(NotPlaying))
    else if s.isPaused then
      Outcome(s, Resolved)
    else
      Outcome(s.(isPaused := true, playInterval := None, timers := CancelTimer(s.timers, s.playInterval),
                 resumeState := Some(dumped), trace := s.trace + PauseCalls(s.audio, dumped)),
              Resolved)
  }

  /** service.resume. When playback is not paused the source resolves but
      does not return, so it goes on to reload the state and to arm one more
      timer without cancelling the current one. A loadState that throws
      escapes the call. */
  function Resume(s: PlayState, now: int): (o: Outcome)
    requires Inv(s)
  {
    if !s.isPlaying then
      Outcome(s, Rejected(NotPlaying))
    else
      var cleared := s.(isPaused := false, registry := map[],
                        trace := s.trace + [RegistryCleared] + [StateLoaded(s.resumeState)]);
      match s.options.value.loadState(s.resumeState)
      case LoadFailed(ex) => Outcome(cleared, Raised(ex))
      case Registered(targets) =>
        var played := cleared.(registry := targets,
                               trace := cleared.trace + (if s.audio.Some? then [AudioPlayed] else []));
        Outcome(Arm(played.(startTime := now - s.playOffset)), Resolved)
  }

  /** service.stop: pause first unless paused, then end playback; a
      rejection of the pause is the rejection of the stop. */
  function Stop(s: PlayState, dumped: Snapshot): (o: Outcome)
  {
    var paused := if s.isPaused then Outcome(s, Resolved) else Pause(s, dumped);
    if paused.settled != Resolved then
      paused
    else
      Outcome(paused.state.(isPlaying := false, isPaused := false, options := None, audio := None), Resolved)
  }

  /** The walk of the tick from state `s`, whose timer is armed. */
  function Walked(s: PlayState, now: int, audioMs: int): (w: Walk)
    requires Inv(s) && s.playInterval.Some?
    ensures s.playCursor <= w.cursor <= |s.recording.value.events|
  {
    Consume(s.recording.value.events, s.playCursor, 0,
            PlayUntil(s.audio.Some?, now, audioMs, s.startTime, s.playOffset),
            s.registry, s.trace, DispatchWith(s.options.value))
  }

  /** playTick; `now` is Date.now(), `audioMs` is the audio position in
      milliseconds, `dumped` is what options.dumpState() returns should the
      tick pause. */
  function Tick(s: PlayState, now: int, audioMs: int, dumped: Snapshot): PlayState
    requires Inv(s)
  {
    if s.playInterval.None? then
      s
    else
      var w := Walked(s, now, audioMs);
      Settle(s.(registry := w.registry, trace := w.log), w.cursor, w.elapsed, w.thrown, dumped)
  }

  /** What playTick does once its loop has stopped at `cursor` with
      `elapsed` accumulated and `thrown` caught, if anything was: pause on an
      exception, advance playOffset and playCursor, and finish at the end of
      the recording. */
  function Settle(s: PlayState, cursor: nat, elapsed: int, thrown: Option<Exception>, dumped: Snapshot): PlayState
    requires s.recording.Some?
  {
    var caught := if thrown.Some? then Pause(s.(exception := thrown), dumped).state else s;
    var moved := caught.(playOffset := s.playOffset + elapsed, playCursor := cursor);
    if cursor == |s.recording.value.events| then Finish(moved, dumped) else moved
  }

  /** The end of the recording: cancel the timer, stop, and emit 'done'. */
  function Finish(s: PlayState, dumped: Snapshot): PlayState {
    var stopped := Stop(s.(timers := CancelTimer(s.timers, s.playInterval), playInterval := None), dumped).state;
    stopped.(trace := stopped.trace + [DoneEmitted])
  }

  // ---------------------------------------------------------------------
  // What each operation promises

  /** start rejects while playing and changes nothing; otherwise it takes
      the recording and options, starts the clock at `now`, rewinds to the
      first event, arms a fresh timer and plays the audio track if there is
      one. */
  lemma StartResult(s: PlayState, rec: Recording, opts: Options, now: int)
    ensures var o := Start(s, rec, opts, now);
      Inv(s) ==> Inv(o.state)
    ensures var o := Start(s, rec, opts, now);
      s.isPlaying ==> o == Outcome(s, Rejected(AlreadyPlaying))
    ensures var o := Start(s, rec, opts, now);
      !s.isPlaying ==>
      var t := o.state;
      && o.settled == Resolved && t.isPlaying && !t.isPaused
      && t.options == Some(opts) && t.recording == Some(rec) && t.startTime == now
      && t.playOffset == 0 && t.playCursor == 0
      && t.playInterval == Some(s.nextTimer) && (Inv(s) ==> s.nextTimer !in s.timers) && s.nextTimer in t.timers
      && (HasAudio(rec) ==> t.audio == rec.audioUrl && t.trace == s.trace + [AudioPlayed])
      && (!HasAudio(rec) ==> t.audio == s.audio && t.trace == s.trace)
      && t.registry == s.registry && t.resumeState == s.resumeState && t.exception == s.exception
  {
  }

  /** pause rejects when not playing and resolves without change when
      already paused; otherwise it pauses the audio, cancels the timer and
      keeps what dumpState returned for resume. */
  lemma PauseResult(s: PlayState, dumped: Snapshot)
    ensures var o := Pause(s, dumped);
      Inv(s) ==> Inv(o.state)
    ensures var o := Pause(s, dumped);
      o.settled == (if s.isPlaying then Resolved else Rejected(NotPlaying))
    ensures var o := Pause(s, dumped);
      !s.isPlaying || s.isPaused ==> o.state == s
    ensures var o := Pause(s, dumped);
      s.isPlaying && !s.isPaused ==>
      var t := o.state;
      && t.isPaused && t.playInterval.None? && t.resumeState == Some(dumped)
      && (s.playInterval.Some? ==> s.playInterval.value !in t.timers)
      && t.trace == s.trace + PauseCalls(s.audio, dumped)
      && t.isPlaying && t.playCursor == s.playCursor && t.playOffset == s.playOffset && t.registry == s.registry
  {
  }

  /** A second pause changes nothing. */
  lemma PauseIdempotent(s: PlayState, d1: Snapshot, d2: Snapshot)
    ensures var t := Pause(s, d1).state;
      Pause(t, d2) == Outcome(t, Pause(s, d1).settled)
  {
  }

  /** resume rejects when not playing. Otherwise it clears the registry and
      reloads the state kept by pause; when that load succeeds it rebases
      the clock so that the budget of a tick `d` milliseconds later is `d`,
      and arms a fresh timer. */
  lemma ResumeResult(s: PlayState, now: int, d: int)
    requires Inv(s)
    ensures var o := Resume(s, now);
      Inv(o.state)
    ensures var o := Resume(s, now);
      !s.isPlaying ==> o == Outcome(s, Rejected(NotPlaying))
    ensures var o := Resume(s, now);
      s.isPlaying ==>
      var t := o.state;
      var loaded := s.options.value.loadState(s.resumeState);
      && !t.isPaused && t.isPlaying && t.playCursor == s.playCursor && t.playOffset == s.playOffset
      && t.trace[..|s.trace|] == s.trace
      && t.trace[|s.trace|..|s.trace| + 2] == [RegistryCleared, StateLoaded(s.resumeState)]
      && (loaded.LoadFailed? ==> o.settled == Raised(loaded.ex) && t.registry == map[])
      && (loaded.Registered? ==>
            && o.settled == Resolved && t.registry == loaded.targets
            && PlayUntil(false, now + d, 0, t.startTime, t.playOffset) == d
            && t.playInterval == Some(s.nextTimer) && s.nextTimer !in s.timers && s.nextTimer in t.timers)
  {
  }

  /** The fall-through of resume: resumed while not paused, playback keeps
      the timer it had and arms a second one beside it. */
  lemma ResumeWhilePlayingArmsSecondTimer(s: PlayState, now: int)
    requires Inv(s) && s.playInterval.Some?
    requires s.options.value.loadState(s.resumeState).Registered?
    ensures var t := Resume(s, now).state;
      && t.playInterval.Some? && t.playInterval != s.playInterval
      && s.playInterval.value in t.timers && t.playInterval.value in t.timers
  {
  }

  /** stop resolves exactly when playback is in progress, rejecting as pause
      does otherwise. A resolved stop pauses first unless already paused, and
      leaves playback neither playing nor paused, with no options, audio or
      armed timer. */
  lemma StopResult(s: PlayState, dumped: Snapshot)
    ensures var o := Stop(s, dumped);
      Inv(s) ==> Inv(o.state)
    ensures var o := Stop(s, dumped);
      Inv(s) ==> o.settled == (if s.isPlaying then Resolved else Rejected(NotPlaying))
    ensures var o := Stop(s, dumped);
      o.settled.Rejected? ==> o.state == s
    ensures var o := Stop(s, dumped);
      o.settled == Resolved ==>
      var t := o.state;
      && !t.isPlaying && !t.isPaused && t.options.None? && t.audio.None?
      && (Inv(s) ==> t.playInterval.None? && (s.playInterval.Some? ==> s.playInterval.value !in t.timers))
      && t.trace == s.trace + (if s.isPaused then [] else PauseCalls(s.audio, dumped))
      && t.recording == s.recording && t.playCursor == s.playCursor && t.playOffset == s.playOffset
      && t.registry == s.registry && t.exception == s.exception
  {
  }

  /** A tick with no armed timer (queued before a pause or stop) does
      nothing. After an armed tick the cursor has not moved back, playback
      is still in progress exactly when events remain, and it is paused
      exactly when a dispatch threw, with that exception recorded. The timer
      keeps running unless the tick stopped or paused playback, which
      cancels it. */
  lemma TickResult(s: PlayState, now: int, audioMs: int, dumped: Snapshot)
    requires Inv(s)
    ensures var t := Tick(s, now, audioMs, dumped);
      Inv(t)
    ensures var t := Tick(s, now, audioMs, dumped);
      s.playInterval.None? ==> t == s
    ensures var t := Tick(s, now, audioMs, dumped);
      t.recording == s.recording && s.playCursor <= t.playCursor
    ensures var t := Tick(s, now, audioMs, dumped);
      s.playInterval.Some? ==>
      var w := Walked(s, now, audioMs);
      && t.playCursor == w.cursor && t.playOffset == s.playOffset + w.elapsed && t.registry == w.registry
      && (t.isPlaying <==> t.playCursor < |s.recording.value.events|)
      && (t.isPaused <==> w.thrown.Some?)
      && t.exception == (if w.thrown.Some? then w.thrown else s.exception)
      && (t.isPlaying && !t.isPaused ==> t.playInterval == s.playInterval)
      && (!t.isPlaying || t.isPaused ==> t.playInterval.None? && s.playInterval.value !in t.timers)
  {
    TickKeepsInv(s, now, audioMs, dumped);
    if s.playInterval.None? {
      TickUnarmed(s, now, audioMs, dumped);
    }
  }

  /** A tick with no armed timer does nothing. */
  lemma TickUnarmed(s: PlayState, now: int, audioMs: int, dumped: Snapshot)
    requires Inv(s) && s.playInterval.None?
    ensures Tick(s, now, audioMs, dumped) == s
  {
  }

  /** Every tick keeps the invariant. */
  lemma TickKeepsInv(s: PlayState, now: int, audioMs: int, dumped: Snapshot)
    requires Inv(s)
    ensures Inv(Tick(s, now, audioMs, dumped))
  {
  }

  /** Where an armed tick leaves the cursor, the clock offset, the registry
      and the playback flags, in terms of its walk; the clock anchor, the
      next timer handle, and (while playing) the audio player stay. */
  lemma TickWalk(s: PlayState, now: int, audioMs: int, dumped: Snapshot)
    requires Inv(s) && s.playInterval.Some?
    ensures var w := Walked(s, now, audioMs);
      var t := Tick(s, now, audioMs, dumped);
      && t.recording == s.recording && (t.isPlaying ==> t.options == s.options)
      && t.playCursor == w.cursor && t.playOffset == s.playOffset + w.elapsed && t.registry == w.registry
      && (t.isPlaying <==> w.cursor < |s.recording.value.events|)
      && (t.isPaused <==> w.thrown.Some?)
      && t.startTime == s.startTime && t.nextTimer == s.nextTimer && (t.isPlaying ==> t.audio == s.audio)
  {
  }

  /** The calls of an armed tick: those of its walk, then pause's when a
      dispatch threw or the recording ended (stop pauses first), then 'done'
      when it ended. */
  lemma TickTrace(s: PlayState, now: int, audioMs: int, dumped: Snapshot)
    requires Inv(s) && s.playInterval.Some?
    ensures var w := Walked(s, now, audioMs);
      var ended := w.cursor == |s.recording.value.events|;
      Tick(s, now, audioMs, dumped).trace
        == w.log + (if w.thrown.Some? || ended then PauseCalls(s.audio, dumped) else [])
                 + (if ended then [DoneEmitted] else [])
  {
  }

  /** Fault isolation: when dispatching the event at k throws, the tick stops
      on it: the cursor stays at k, playback is paused with the exception
      recorded and the state dumped, and the calls made for the events
      before k stand. */
  lemma TickPausesOnException(s: PlayState, now: int, audioMs: int, dumped: Snapshot)
    requires Inv(s) && s.playInterval.Some?
    requires Walked(s, now, audioMs).thrown.Some?
    ensures var w := Walked(s, now, audioMs);
      var t := Tick(s, now, audioMs, dumped);
      && t.playCursor == w.cursor < |s.recording.value.events|
      && t.isPlaying && t.isPaused && t.playInterval.None? && t.exception == w.thrown
      && t.resumeState == Some(dumped) && t.trace == w.log + PauseCalls(s.audio, dumped)
      && s.trace <= t.trace
  {
    TickTrace(s, now, audioMs, dumped);
    DispatchWithAppendsOnly(s.options.value);
    ConsumeExtendsLog(s.recording.value.events, s.playCursor, 0, PlayUntil(s.audio.Some?, now, audioMs, s.startTime, s.playOffset),
                      s.registry, s.trace, DispatchWith(s.options.value));
  }

  /** pause's calls hand nothing to the hook and emit no 'done'. */
  lemma PauseCallsQuiet(log: seq<Effect>, audio: Option<string>, dumped: Snapshot)
    ensures Hooked(log + PauseCalls(audio, dumped)) == Hooked(log)
    ensures DoneCount(log + PauseCalls(audio, dumped)) == DoneCount(log)
  {
    if audio.Some? {
      SnocQuiet(log, AudioPaused);
      SnocQuiet(log + [AudioPaused], StateDumped(dumped));
      assert log + PauseCalls(audio, dumped) == log + [AudioPaused] + [StateDumped(dumped)];
    } else {
      SnocQuiet(log, StateDumped(dumped));
    }
  }

  /** After its walk, an armed tick hands nothing more to the hook, and
      emits 'done' once if it reached the end of the recording. */
  lemma TickTail(s: PlayState, now: int, audioMs: int, dumped: Snapshot)
    requires Inv(s) && s.playInterval.Some?
    ensures var w := Walked(s, now, audioMs);
      var t := Tick(s, now, audioMs, dumped);
      && Hooked(t.trace) == Hooked(w.log)
      && DoneCount(t.trace) == DoneCount(w.log) + (if w.cursor == |s.recording.value.events| then 1 else 0)
  {
    var w := Walked(s, now, audioMs);
    var ended := w.cursor == |s.recording.value.events|;
    TickTrace(s, now, audioMs, dumped);
    var paused := w.log + (if w.thrown.Some? || ended then PauseCalls(s.audio, dumped) else []);
    if w.thrown.Some? || ended {
      PauseCallsQuiet(w.log, s.audio, dumped);
    } else {
      assert paused == w.log;
    }
    if ended {
      SnocDone(paused);
    } else {
      assert paused + [] == paused;
    }
  }

  /** The inclusive time boundary: a tick consumes, from the cursor on, the
      events whose accumulated delta is at most its budget (and the event
      that threw was due too); one that ends early without an exception ends
      on the first event not yet due. playOffset grows by the deltas
      consumed, plus the delta of the event that threw. */
  lemma TickConsumesDueEvents(s: PlayState, now: int, audioMs: int, dumped: Snapshot)
    requires Inv(s) && s.playInterval.Some?
    ensures var events := s.recording.value.events;
      var budget := PlayUntil(s.audio.Some?, now, audioMs, s.startTime, s.playOffset);
      var t := Tick(s, now, audioMs, dumped);
      var thrown := Walked(s, now, audioMs).thrown;
      && (forall i :: s.playCursor <= i < t.playCursor ==> DueAt(events, s.playCursor, i) <= budget)
      && (thrown.Some? ==> t.playCursor < |events| && DueAt(events, s.playCursor, t.playCursor) <= budget)
      && (thrown.None? && t.playCursor < |events| ==> DueAt(events, s.playCursor, t.playCursor) > budget)
      && t.playOffset == s.playOffset + DeltaSum(events[s.playCursor..t.playCursor])
                         + (if thrown.Some? then events[t.playCursor].delta else 0)
  {
    var events := s.recording.value.events;
    var budget := PlayUntil(s.audio.Some?, now, audioMs, s.startTime, s.playOffset);
    TickResult(s, now, audioMs, dumped);
    ConsumeBoundary(events, s.playCursor, 0, budget, s.registry, s.trace, DispatchWith(s.options.value));
    ConsumeElapsed(events, s.playCursor, 0, budget, s.registry, s.trace, DispatchWith(s.options.value));
  }

  /** What the walk of an armed tick hands to the hook, when there is one. */
  lemma WalkHooks(s: PlayState, now: int, audioMs: int)
    requires Inv(s) && s.playInterval.Some? && s.options.value.replayEvent.Some?
    ensures var w := Walked(s, now, audioMs);
      var n := |Hooked(w.log)| - |Hooked(s.trace)|;
      && w.cursor - s.playCursor <= n <= w.cursor - s.playCursor + (if w.thrown.Some? then 1 else 0)
      && s.playCursor + n <= |s.recording.value.events|
      && Hooked(w.log) == Hooked(s.trace) + s.recording.value.events[s.playCursor..s.playCursor + n]
  {
    var budget := PlayUntil(s.audio.Some?, now, audioMs, s.startTime, s.playOffset);
    var dispatch := DispatchWith(s.options.value);
    assert Walked(s, now, audioMs) == Consume(s.recording.value.events, s.playCursor, 0, budget, s.registry, s.trace, dispatch);
    DispatchWithHooksOnce(s.options.value);
    ConsumeHooks(s.recording.value.events, s.playCursor, 0, budget, s.registry, s.trace, dispatch, Hooked);
  }

  /** In-order dispatch to the targets: the walk of an armed tick looks up
      the targets of the events from the cursor on, in recording order, each
      once: every event the tick consumed, and at most the one that threw.
      This holds with or without a hook in the options. */
  lemma WalkLooksUpInOrder(s: PlayState, now: int, audioMs: int)
    requires Inv(s) && s.playInterval.Some?
    ensures var w := Walked(s, now, audioMs);
      var n := |Looked(w.log)| - |Looked(s.trace)|;
      && w.cursor - s.playCursor <= n <= w.cursor - s.playCursor + (if w.thrown.Some? then 1 else 0)
      && s.playCursor + n <= |s.recording.value.events|
      && Looked(w.log) == Looked(s.trace) + s.recording.value.events[s.playCursor..s.playCursor + n]
  {
    var budget := PlayUntil(s.audio.Some?, now, audioMs, s.startTime, s.playOffset);
    var dispatch := DispatchWith(s.options.value);
    assert Walked(s, now, audioMs) == Consume(s.recording.value.events, s.playCursor, 0, budget, s.registry, s.trace, dispatch);
    DispatchWithLooksUpOnce(s.options.value);
    ConsumeHooks(s.recording.value.events, s.playCursor, 0, budget, s.registry, s.trace, dispatch, Looked);
  }

  /** In-order dispatch to options.replayEvent: over one armed tick the hook
      receives the events from the cursor on, in recording order, each once:
      every event the tick consumed, and at most the one that threw. */
  lemma TickHooksInOrder(s: PlayState, now: int, audioMs: int, dumped: Snapshot)
    requires Inv(s) && s.playInterval.Some? && s.options.value.replayEvent.Some?
    ensures var events := s.recording.value.events;
      var t := Tick(s, now, audioMs, dumped);
      var n := |Hooked(t.trace)| - |Hooked(s.trace)|;
      && t.playCursor - s.playCursor <= n <= t.playCursor - s.playCursor + (if t.isPaused then 1 else 0)
      && s.playCursor + n <= |events|
      && Hooked(t.trace) == Hooked(s.trace) + events[s.playCursor..s.playCursor + n]
  {
    WalkHooks(s, now, audioMs);
    TickWalk(s, now, audioMs, dumped);
    TickTail(s, now, audioMs, dumped);
  }

  /** Without a hook in the options, a tick hands it nothing. */
  lemma TickWithoutHook(s: PlayState, now: int, audioMs: int, dumped: Snapshot)
    requires Inv(s) && s.options.Some? && s.options.value.replayEvent.None?
    ensures Hooked(Tick(s, now, audioMs, dumped).trace) == Hooked(s.trace)
  {
    if s.playInterval.Some? {
      var budget := PlayUntil(s.audio.Some?, now, audioMs, s.startTime, s.playOffset);
      TickTail(s, now, audioMs, dumped);
      DispatchWithHooksOnce(s.options.value);
      ConsumeWithoutHook(s.recording.value.events, s.playCursor, 0, budget, s.registry, s.trace,
                         DispatchWith(s.options.value), Hooked);
    }
  }

  /** A tick in which nothing throws hands the hook exactly the events it
      consumed. */
  lemma TickHooksConsumed(s: PlayState, now: int, audioMs: int, dumped: Snapshot)
    requires Inv(s) && s.isPlaying && s.options.value.replayEvent.Some?
    ensures var t := Tick(s, now, audioMs, dumped);
      !t.isPaused ==> Hooked(t.trace) == Hooked(s.trace) + s.recording.value.events[s.playCursor..t.playCursor]
  {
    if s.playInterval.Some? {
      TickWalk(s, now, audioMs, dumped);
      TickHooksInOrder(s, now, audioMs, dumped);
    } else {
      assert s.recording.value.events[s.playCursor..s.playCursor] == [];
    }
  }

  /** No double dispatch across ticks: over two successive ticks in which
      nothing throws, the second starting where the first stopped, the hook
      receives each event from the cursor once, in order. */
  lemma TwoTicksHookEachEventOnce(s: PlayState, now1: int, audio1: int, now2: int, audio2: int, dumped: Snapshot)
    requires Inv(s) && s.isPlaying && s.options.value.replayEvent.Some?
    ensures var t1 := Tick(s, now1, audio1, dumped);
      && Inv(t1)
      && var t2 := Tick(t1, now2, audio2, dumped);
      (!t1.isPaused && !t2.isPaused ==>
        Hooked(t2.trace) == Hooked(s.trace) + s.recording.value.events[s.playCursor..t2.playCursor])
  {
    var t1 := Tick(s, now1, audio1, dumped);
    TickKeepsInv(s, now1, audio1, dumped);
    var t2 := Tick(t1, now2, audio2, dumped);
    if !t1.isPaused && !t2.isPaused {
      var events := s.recording.value.events;
      TickHooksConsumed(s, now1, audio1, dumped);
      assert Hooked(t1.trace) == Hooked(s.trace) + events[s.playCursor..t1.playCursor];
      if t1.isPlaying {
        assert t1.recording == s.recording && t1.options == s.options by {
          if s.playInterval.Some? {
            TickWalk(s, now1, audio1, dumped);
          } else {
            TickUnarmed(s, now1, audio1, dumped);
          }
        }
        TickHooksConsumed(t1, now2, audio2, dumped);
        var first, second := events[s.playCursor..t1.playCursor], events[t1.playCursor..t2.playCursor];
        assert Hooked(t2.trace) == (Hooked(s.trace) + first) + second;
        AppendAssoc(Hooked(s.trace), first, second);
        SliceSplit(events, s.playCursor, t1.playCursor, t2.playCursor);
      } else {
        TickUnarmed(t1, now2, audio2, dumped);
      }
    }
  }

  /** 'done' is emitted exactly once, by the armed tick that ends playback,
      and it is the last call of that tick. */
  lemma TickEmitsDoneOnce(s: PlayState, now: int, audioMs: int, dumped: Snapshot)
    requires Inv(s) && s.playInterval.Some?
    ensures var t := Tick(s, now, audioMs, dumped);
      && DoneCount(t.trace) == DoneCount(s.trace) + (if t.isPlaying then 0 else 1)
      && (!t.isPlaying ==> t.trace[|t.trace| - 1] == DoneEmitted)
  {
    TickResult(s, now, audioMs, dumped);
    TickTrace(s, now, audioMs, dumped);
    TickTail(s, now, audioMs, dumped);
    DispatchWithHooksOnce(s.options.value);
    ConsumeEmitsNoDone(s.recording.value.events, s.playCursor, 0, PlayUntil(s.audio.Some?, now, audioMs, s.startTime, s.playOffset),
                       s.registry, s.trace, DispatchWith(s.options.value));
  }

  /** A tick queued before a pause or a stop does nothing when it runs. */
  lemma TickAfterPauseOrStop(s: PlayState, dumped: Snapshot, now: int, audioMs: int, later: Snapshot)
    requires Inv(s)
    ensures var p := Pause(s, dumped).state;
      Inv(p) && Tick(p, now, audioMs, later) == p
    ensures var q := Stop(s, dumped).state;
      Inv(q) && Tick(q, now, audioMs, later) == q
  {
    PauseResult(s, dumped);
    StopResult(s, dumped);
  }

  // ---------------------------------------------------------------------
  // A whole playback

  /** A recording that resets the session and then sends two events, 50 ms
      apart, to the target "t1" that the reset registers; started at `start`
      without audio and ticked 100 ms later, every event is due (the last one
      exactly on the boundary), each reaches "t1" after the reset, and
      playback ends with a pause, a stop and one 'done'. */
  lemma ReplayToTheEnd(opts: Options, x: Snapshot, target: Target, dumped: Snapshot, start: int)
    requires opts.loadState(Some(x)) == Registered(map["t1" := target])
    requires forall t: Target, e: Event :: opts.targetReplay(t, e) == Normal
    requires opts.replayEvent.None?
    ensures var inc := Event(50, "t1", "inc", None);
      var rec := Recording([Event(0, "", "0", Some(x)), inc, inc], None);
      var o := Start(Initial, rec, opts, start);
      var t := Tick(o.state, start + 100, 0, dumped);
      && o.settled == Resolved && Inv(o.state)
      && t.playCursor == 3 && t.playOffset == 100 && !t.isPlaying && !t.isPaused && t.playInterval.None?
      && t.trace == [RegistryCleared, StateLoaded(Some(x)), UpdateEmitted, TargetLooked(rec.events[0], None),
                     TargetLooked(inc, Some(target)), TargetReplayed(target, inc),
                     TargetLooked(inc, Some(target)), TargetReplayed(target, inc),
                     StateDumped(dumped), DoneEmitted]
  {
    var inc := Event(50, "t1", "inc", None);
    var reset := Event(0, "", "0", Some(x));
    var events := [reset, inc, inc];
    var rec := Recording(events, None);
    var targets := map["t1" := target];
    var s := Start(Initial, rec, opts, start).state;
    assert s == PlayState(Some(opts), Some(rec), start, true, false, Some(0), 0, 0, None, None, None,
                          map[], {0}, 1, []);
    var l0 := [RegistryCleared, StateLoaded(Some(x)), UpdateEmitted, TargetLooked(reset, None)];
    var l1 := l0 + [TargetLooked(inc, Some(target)), TargetReplayed(target, inc)];
    var l2 := l1 + [TargetLooked(inc, Some(target)), TargetReplayed(target, inc)];
    assert Dispatch(opts, map[], reset, []) == Step(targets, l0, None);
    assert Dispatch(opts, targets, inc, l0) == Step(targets, l1, None);
    assert Dispatch(opts, targets, inc, l1) == Step(targets, l2, None);
    var dispatch := DispatchWith(opts);
    assert Consume(events, 3, 100, 100, targets, l2, dispatch) == Walk(3, 100, targets, l2, None);
    assert Consume(events, 2, 50, 100, targets, l1, dispatch) == Walk(3, 100, targets, l2, None);
    assert Consume(events, 1, 0, 100, targets, l0, dispatch) == Walk(3, 100, targets, l2, None);
    assert Walked(s, start + 100, 0) == Walk(3, 100, targets, l2, None);
  }
}
