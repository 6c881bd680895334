/** The replay engine of src/services/player.js as the source runs it: one
    shared playback state whose fields start, pause, resume and stop update
    in place, and the periodic tick whose loop dispatches the recording's
    due events. Each operation is proved to agree with its counterpart in
    module Playback. */
module Player {
  import opened Wrappers
  import opened PlayerSpec
  import Playback

  class Player {
    var options: Option<Options>
    var recording: Option<Recording>
    var startTime: int
    var isPlaying: bool
    var isPaused: bool
    /** The handle of the armed interval timer, if any. */
    var playInterval: Option<nat>
    /** Virtual time, in milliseconds, of the last event played. */
    var playOffset: int
    /** Index of the next event to replay. */
    var playCursor: nat
    var resumeState: Option<Snapshot>
    /** The audio player, named by its URL. */
    var audio: Option<string>
    var exception: Option<Exception>
    /** The target registry. */
    var registry: Registry
    /** Interval timers that are still firing, and the next handle. */
    var timers: set<nat>
    var nextTimer: nat
    /** Every call and signal made so far, in order. */
    var trace: seq<Effect>

    /** The fields, as a value. */
    ghost function State(): Playback.PlayState
      reads this
    {
      Playback.PlayState(options, recording, startTime, isPlaying, isPaused, playInterval, playOffset,
                         playCursor, resumeState, audio, exception, registry, timers, nextTimer, trace)
    }

    /** The fields hold `st`. */
    ghost predicate Is(st: Playback.PlayState)
      reads this
    {
      && options == st.options && recording == st.recording && startTime == st.startTime
      && isPlaying == st.isPlaying && isPaused == st.isPaused && playInterval == st.playInterval
      && playOffset == st.playOffset && playCursor == st.playCursor && resumeState == st.resumeState
      && audio == st.audio && exception == st.exception && registry == st.registry
      && timers == st.timers && nextTimer == st.nextTimer && trace == st.trace
    }

    ghost predicate Valid()
      reads this
    {
      Playback.Inv(State())
    }

    constructor ()
      ensures Valid() && Is(Playback.Initial)
    {
      options, recording := None, None;
      startTime := 0;
      isPlaying, isPaused := false, false;
      playInterval := None;
      playOffset, playCursor := 0, 0;
      resumeState, audio, exception := None, None, None;
      registry := map[];
      timers, nextTimer := {}, 0;
      trace := [];
    }

    /** $interval(playTick, 20): a fresh timer, stored as the current one. */
    method ArmTimer()
      modifies this`playInterval, this`timers, this`nextTimer
      ensures Is(Playback.Arm(old(State())))
    {
      playInterval := Some(nextTimer);
      timers := timers + {nextTimer};
      nextTimer := nextTimer + 1;
    }

    /** The first assignments of service.start. */
    method Begin(rec: Recording, opts: Options, now: int)
      modifies this`options, this`recording, this`startTime, this`isPlaying, this`isPaused
      ensures Is(old(State()).(options := Some(opts), recording := Some(rec), startTime := now,
                               isPlaying := true, isPaused := false))
    {
      options := Some(opts);
      recording := Some(rec);
      startTime := now;
      isPlaying := true;
      isPaused := false;
    }

    /** audio.getPlayer(url).play() */
    method PlayAudio(url: Option<string>)
      modifies this`audio, this`trace
      ensures Is(old(State()).(audio := url, trace := old(trace) + [AudioPlayed]))
    {
      audio := url;
      trace := trace + [AudioPlayed];
    }

    /** service.start */
    method Start(rec: Recording, opts: Options, now: int) returns (r: Playback.Settled)
      requires Valid()
      modifies this
      ensures Valid()
      ensures var o := Playback.Start(old(State()), rec, opts, now);
        r == o.settled && Is(o.state)
    {
      if isPlaying {
        return Playback.Rejected(Playback.AlreadyPlaying);
      }
      Begin(rec, opts, now);
      ArmTimer();
      playOffset := 0;
      playCursor := 0;
      if Playback.HasAudio(rec) {
        PlayAudio(rec.audioUrl);
      }
      r := Playback.Resolved;
    }

    /** service.pause; `dumped` is what options.dumpState() returns. */
    method Pause(dumped: Snapshot) returns (r: Playback.Settled)
      requires Valid()
      modifies this`isPaused, this`playInterval, this`resumeState, this`timers, this`trace
      ensures Valid()
      ensures var o := Playback.Pause(old(State()), dumped);
        r == o.settled && Is(o.state)
    {
      if !isPlaying {
        return Playback.Rejected(Playback.NotPlaying);
      }
      if isPaused {
        return Playback.Resolved;
      }
      if audio.Some? {
        trace := trace + [AudioPaused];
      }
      timers := Playback.CancelTimer(timers, playInterval);
      trace := trace + [StateDumped(dumped)];
      resumeState := Some(dumped);
      playInterval := None;
      isPaused := true;
      r := Playback.Resolved;
    }

    /** registry.clear() then options.loadState(snapshot); the targets the
        load registers land in the cleared registry. */
    method Reload(snapshot: Option<Snapshot>) returns (loaded: LoadOutcome)
      requires options.Some?
      modifies this`registry, this`trace
      ensures loaded == options.value.loadState(snapshot)
      ensures registry == (if loaded.Registered? then loaded.targets else map[])
      ensures trace == old(trace) + [RegistryCleared] + [StateLoaded(snapshot)]
    {
      registry := map[];
      trace := trace + [RegistryCleared];
      trace := trace + [StateLoaded(snapshot)];
      loaded := options.value.loadState(snapshot);
      if loaded.Registered? {
        registry := registry + loaded.targets;
      }
    }

    /** service.resume. When playback is not paused the source resolves but
        does not return, and goes on as from a pause. */
    method Resume(now: int) returns (r: Playback.Settled)
      requires Valid()
      modifies this`isPaused, this`registry, this`trace, this`startTime, this`playInterval, this`timers, this`nextTimer
      ensures Valid()
      ensures var o := Playback.Resume(old(State()), now);
        r == o.settled && Is(o.state)
    {
      if !isPlaying {
        return Playback.Rejected(Playback.NotPlaying);
      }
      isPaused := false;
      var loaded := Reload(resumeState);
      if loaded.LoadFailed? {
        return Playback.Raised(loaded.ex);
      }
      if audio.Some? {
        trace := trace + [AudioPlayed];
      }
      startTime := now - playOffset;
      ArmTimer();
      r := Playback.Resolved;
    }

    /** service.stop: pause first unless paused, then end playback; a
        rejection of the pause is the rejection of the stop. */
    method Stop(dumped: Snapshot) returns (r: Playback.Settled)
      requires Valid()
      modifies this`isPlaying, this`isPaused, this`options, this`audio, this`playInterval,
               this`resumeState, this`timers, this`trace
      ensures Valid()
      ensures var o := Playback.Stop(old(State()), dumped);
        r == o.settled && Is(o.state)
    {
      if !isPaused {
        var paused := Pause(dumped);
        if paused != Playback.Resolved {
          return paused;
        }
      }
      isPlaying := false;
      isPaused := false;
      options := None;
      audio := None;
      r := Playback.Resolved;
    }

    /** The `try` block of playTick for one event. */
    method DispatchEvent(e: Event) returns (thrown: Option<Exception>)
      requires options.Some?
      modifies this`registry, this`trace
      ensures var s := Dispatch(options.value, old(registry), e, old(trace));
        registry == s.registry && trace == s.log && thrown == s.thrown
    {
      var opts := options.value;
      if e.target == "" {
        if e.op == "0" {
          var loaded := Reload(e.payload);
          if loaded.LoadFailed? {
            return Some(loaded.ex);
          }
          trace := trace + [UpdateEmitted];
        }
      }
      var target := Lookup(registry, e.target);
      trace := trace + [TargetLooked(e, target)];
      if target.Some? {
        trace := trace + [TargetReplayed(target.value, e)];
        var done := opts.targetReplay(target.value, e);
        if done.Abrupt? {
          return Some(done.ex);
        }
      }
      if opts.replayEvent.Some? {
        trace := trace + [HookReplayed(e)];
        var done := opts.replayEvent.value(e);
        if done.Abrupt? {
          return Some(done.ex);
        }
      }
      thrown := None;
    }

    /** The consumption loop of playTick, from playCursor with budget
        `playUntil`: the cursor reached, the time accumulated and the
        exception that stopped the loop, if any. */
    method ConsumeDue(playUntil: int) returns (cursor: nat, timeElapsed: int, failure: Option<Exception>)
      requires options.Some? && recording.Some? && playCursor <= |recording.value.events|
      modifies this`registry, this`trace
      ensures Walk(cursor, timeElapsed, registry, trace, failure)
           == Consume(recording.value.events, playCursor, 0, playUntil, old(registry), old(trace), DispatchWith(options.value))
    {
      cursor := playCursor;
      timeElapsed := 0;
      var events := recording.value.events;
      ghost var dispatch := DispatchWith(options.value);
      ghost var w := Consume(events, cursor, 0, playUntil, registry, trace, dispatch);
      failure := None;
      while cursor < |events|
        invariant playCursor <= cursor <= |events|
        invariant failure.None?
        invariant Consume(events, cursor, timeElapsed, playUntil, registry, trace, dispatch) == w
      {
        var event := events[cursor];
        if timeElapsed + event.delta > playUntil {
          break;
        }
        ghost var before, logged := registry, trace;
        timeElapsed := timeElapsed + event.delta;
        var thrown := DispatchEvent(event);
        assert dispatch(before, event, logged) == Step(registry, trace, thrown);
        if thrown.Some? {
          failure := thrown;
          break;
        }
        cursor := cursor + 1;
      }
    }

    /** The end of the recording in playTick: cancel the timer, stop, and
        emit 'done'. */
    method Finish(dumped: Snapshot)
      requires Valid()
      modifies this
      ensures Is(Playback.Finish(old(State()), dumped))
    {
      timers := Playback.CancelTimer(timers, playInterval);
      playInterval := None;
      var _ := Stop(dumped);
      trace := trace + [DoneEmitted];
    }

    /** The catch block of playTick: keep the exception and pause. */
    method Catch(ex: Exception, dumped: Snapshot)
      requires Valid()
      modifies this`exception, this`isPaused, this`playInterval, this`resumeState, this`timers, this`trace
      ensures Valid()
      ensures Is(Playback.Pause(old(State()).(exception := Some(ex)), dumped).state)
    {
      exception := Some(ex);
      var _ := Pause(dumped);
    }

    /** What playTick does after its loop. */
    method Settle(cursor: nat, elapsed: int, thrown: Option<Exception>, dumped: Snapshot)
      requires Valid() && recording.Some? && cursor <= |recording.value.events|
      modifies this
      ensures Is(Playback.Settle(old(State()), cursor, elapsed, thrown, dumped))
    {
      if thrown.Some? {
        Catch(thrown.value, dumped);
      }
      playOffset := playOffset + elapsed;
      playCursor := cursor;
      if cursor == |recording.value.events| {
        Finish(dumped);
      }
    }

    /** playTick; `now` is Date.now(), `audioMs` is the audio position in
        milliseconds, `dumped` is what options.dumpState() returns should the
        tick pause. */
    method Tick(now: int, audioMs: int, dumped: Snapshot)
      requires Valid()
      modifies this
      ensures Valid()
      ensures Is(Playback.Tick(old(State()), now, audioMs, dumped))
    {
      Playback.TickResult(State(), now, audioMs, dumped);
      if playInterval.None? {
        return;
      }
      var playUntil;
      if audio.Some? {
        playUntil := audioMs - playOffset;
      } else {
        playUntil := now - startTime - playOffset;
      }
      var cursor, timeElapsed, failure := ConsumeDue(playUntil);
      assert Playback.Walked(old(State()), now, audioMs) == Walk(cursor, timeElapsed, registry, trace, failure);
      assert State() == old(State()).(registry := registry, trace := trace);
      Settle(cursor, timeElapsed, failure, dumped);
    }
  }
}
