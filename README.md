# fioi-editor2 playback and buffers, in Dafny

This project models two services of the fioi-editor2 code editor. It proves
what they promise.

**The player** (`src/services/player.js`) replays a recorded editing session.
A recording is a list of events `[delta, targetId, op, payload]`, where
`delta` is the number of milliseconds since the previous event. The service
keeps one shared `state` record and offers `start`, `pause`, `resume` and
`stop`. While playing, an interval timer calls `playTick`.

- `playTick` computes a time budget: the audio position, or else the
  wall-clock time since `startTime`, less what was already played.
- It dispatches every event whose accumulated delta fits within the budget.
  The limit is inclusive.
- A global reset event (empty target id, op `'0'`) first clears the target
  registry and reloads the session state.
- Each event then goes to its registered target, if any, and to the
  `replayEvent` hook of the options, if one was given.
- If a dispatch throws, the tick stops on that event and pauses playback.
- When a tick reaches the end of the recording, it stops playback and
  emits `'done'`.

**The buffer store** (`js/services/buffers.js`) keeps a table of named text
buffers. `add` mints the name `'b' + nextId` and increments the counter.
`update` assigns only the fields it is given and announces the change on
the root scope.

The model has five files:

- `wrappers.dfy`: the `Option` type.
- `player_spec.dfy`: module `PlayerSpec`. It holds the recording format,
  the collaborators, the dispatch of one event (`Dispatch`, `Route`, `Hook`)
  and the walk of one tick (`Consume`), all as pure functions, with their
  lemmas.
- `playback.dfy`: module `Playback`. The service `state` is the value
  `PlayState`, and every operation is a function from the state before the
  call to the state after it and how its promise settles. Lemmas state what
  each operation does and what the tick guarantees.
- `player.dfy`: module `Player`. Class `Player` has the fields of the
  `state` record and updates them in place. The tick's consumption loop is a
  `while` loop with invariants. Each method is proved to leave the fields
  equal to the result of its `Playback` function.
- `buffers.dfy`: module `Buffers`. Classes `Buffer`, `BufferStore` and
  `RootScope` hold buffer names, the table and its counter, and the emitted
  signals.

The collaborators are values of the `Options` datatype:

- `options.loadState` returns the targets that the loaded state registers,
  or the exception it throws.
- A target's `replayEvent` and `options.replayEvent` return `Normal` or
  `Abrupt(ex)`.
- What `options.dumpState()` returns is a parameter of `pause`, `stop` and
  the tick.
- `Date.now()` and the audio position (in milliseconds) are integer
  parameters.

Every call the player makes into the registry, the options, the targets and
the audio player is appended to a `trace` field, and so is every signal it
emits. The ordering properties are stated on this trace. The interval timer
is a set of live handles plus the next fresh handle, so a timer that is
armed and never cancelled stays visible.

Three behaviours of the code are easy to miss; the model follows the code:

- `stop` when playback is not in progress rejects, because the rejection of
  its `pause` propagates (line 78).
- `resume` when playback is not paused calls `resolve()` without returning
  (lines 58-59). It therefore goes on to clear the registry, reload
  `resumeState`, rebase `startTime` and arm a second timer without
  cancelling the first.
- In `playTick`, the delta of an event is added to `timeElapsed` before the
  `try` block (line 114). A dispatch that throws therefore still advances
  `playOffset` by that delta, while `playCursor` stays on the event.

## Model

| member | source | states |
|---|---|---|
| PlayerSpec.IsGlobalReset | src/services/player.js:122-123 | defines the global reset test (empty target id and op `'0'`); its effect is stated by ResetBeforeLookup and NonResetKeepsRegistry |
| PlayerSpec.Dispatch | src/services/player.js:117-139 | defines the `try` block for one event: reset first, then target, then hook, stopping at the first throw; its properties are stated by ResetBeforeLookup, ResetIgnoresStaleRegistry, NonResetKeepsRegistry, DispatchExtendsLog and DispatchHooks |
| PlayerSpec.Route | src/services/player.js:133-135 | defines the target lookup and the target's `replayEvent`; its properties are stated by RouteDelivers, RouteLooksUp and RouteHooks |
| PlayerSpec.Hook | src/services/player.js:137-138 | defines the call of `options.replayEvent` when it is a function; its properties are stated by HookHooks |
| PlayerSpec.Lookup | src/services/player.js:133 | `registry.getTarget(id)` finds an object exactly when one is registered under `id`, and finds that object |
| PlayerSpec.ResetBeforeLookup | src/services/player.js:122-133 | for a global reset, the registry is cleared and `loadState(payload)` is called before the target lookup; a failed load ends the dispatch with an empty registry; a successful load emits the update and the lookup sees exactly the registered targets |
| PlayerSpec.ResetIgnoresStaleRegistry | src/services/player.js:122-128 | a global reset behaves the same whatever registry it finds, so no target of the previous session receives it |
| PlayerSpec.NonResetKeepsRegistry | src/services/player.js:122-133 | any other event leaves the registry unchanged, and its first call is the lookup of its own target id |
| PlayerSpec.DispatchExtendsLog | src/services/player.js:117-138 | dispatching an event only appends calls to the log |
| PlayerSpec.HookHooks | src/services/player.js:137-138 | when the hook exists its event joins the hooked events exactly once, whether the hook then returns or throws; without a hook nothing does; no `'done'` is emitted |
| PlayerSpec.RouteDelivers | src/services/player.js:130-135 | the lookup of the event's own target id is the first call; a registered target receives the event in the very next call; an event whose id is not registered reaches no target |
| PlayerSpec.HookLooksNothing | src/services/player.js:137-138 | the hook call makes no target lookup |
| PlayerSpec.RouteLooksUp | src/services/player.js:133-138 | routing an event looks up that event's target exactly once |
| PlayerSpec.DispatchLooksUp | src/services/player.js:117-139 | one dispatch looks up the target of its event exactly once, except a global reset whose `loadState` threw, which looks up nothing |
| PlayerSpec.DispatchWithLooksUpOnce | src/services/player.js:117-139 | DispatchLooksUp, for every registry, event and log of a dispatcher: at most once, and exactly once when nothing threw |
| PlayerSpec.RouteHooks | src/services/player.js:133-138 | the target lookup and the target's `replayEvent` hand nothing to the options hook |
| PlayerSpec.DispatchHooks | src/services/player.js:117-138 | one dispatch hands the event to `options.replayEvent` at most once, and exactly once when the hook exists and nothing threw; it never emits `'done'` |
| PlayerSpec.DispatchWithHooksOnce | src/services/player.js:117-138 | DispatchHooks, for every registry, event and log of a dispatcher |
| PlayerSpec.Consume | src/services/player.js:110-146 | the walk's cursor never moves back and stays within the events; a walk stopped by an exception stops on an existing event |
| PlayerSpec.ConsumeElapsed | src/services/player.js:112-114 | `timeElapsed` is the sum of the consumed deltas, plus the delta of the event that threw (it is added before the `try`) |
| PlayerSpec.ConsumeBoundary | src/services/player.js:110-113 | inclusive boundary: every consumed event, and the event that threw, was due; a walk that ends early without an exception ends on the first event that is not yet due |
| PlayerSpec.ConsumeExtendsLog | src/services/player.js:110-146 | the walk only appends to the log, so the calls made for earlier events stand |
| PlayerSpec.ConsumeEmitsNoDone | src/services/player.js:110-146 | the walk emits no `'done'` |
| PlayerSpec.ConsumeWithoutHook | src/services/player.js:136-138 | without a hook in the options, the walk hands nothing to it |
| PlayerSpec.ConsumeHooks | src/services/player.js:110-146 | for any view of the log to which each dispatch adds its event at most once, and exactly once when nothing threw (the hook calls, the target lookups), the walk adds the events from the cursor onward, in recording order and each once: all consumed events, plus at most the event that threw |
| PlayerSpec.ResetPopulatesRegistryBeforeTargetEvent | src/services/player.js:122-135 | a reset followed at the same instant by an event for "t1" delivers that event to the "t1" that `loadState` registered, with the exact sequence of calls |
| Playback.Inv | src/services/player.js:4-13 | defines the invariant of the `state` record: an armed timer means playing and not paused, paused means playing with no timer, playing means options and a recording with the cursor within it; it is kept by StartResult, PauseResult, ResumeResult, StopResult and TickKeepsInv |
| Playback.HasAudio | src/services/player.js:28 | defines the truthiness test of `recording.audioUrl`; StartResult states that audio plays exactly when it holds |
| Playback.Arm | src/services/player.js:25 | defines `$interval(playTick, 20)` on the state value; StartResult and ResumeResult state that the new handle is fresh and live |
| Playback.PlayUntil | src/services/player.js:101-107 | defines the tick's budget, audio position or wall clock, less `playOffset`; ResumeResult states that after a resume it is the time since the resume, and TickConsumesDueEvents relates it to the consumed events |
| Playback.Start | src/services/player.js:16-34 | defines `start` on the state value; its properties are stated by StartResult |
| Playback.Pause | src/services/player.js:37-51 | defines `pause` on the state value; its properties are stated by PauseResult and PauseIdempotent |
| Playback.Resume | src/services/player.js:54-71 | defines `resume` on the state value, fall-through included; its properties are stated by ResumeResult and ResumeWhilePlayingArmsSecondTimer |
| Playback.Stop | src/services/player.js:74-91 | defines `stop` on the state value; its properties are stated by StopResult |
| Playback.Tick | src/services/player.js:97-155 | defines `playTick` on the state value; its properties are stated by TickResult, TickWalk, TickTrace, TickPausesOnException, TickConsumesDueEvents, TickHooksInOrder, TickEmitsDoneOnce and TwoTicksHookEachEventOnce |
| Playback.Settle | src/services/player.js:140-154 | defines what follows the loop: the catch's pause, the offset and cursor update, and the finish at the end; its properties are stated by TickWalk, TickTrace and TickTail |
| Playback.Finish | src/services/player.js:149-154 | defines the end of the recording: cancel, stop, `'done'`; its properties are stated by TickResult and TickEmitsDoneOnce |
| Playback.CancelTimer | src/services/player.js:45 | `$interval.cancel(handle)` removes exactly that handle from the live timers; a null handle cancels nothing |
| Playback.Walked | src/services/player.js:101-110 | the walk of an armed tick starts at `playCursor`, and the cursor it reaches is within the recording |
| Playback.StartResult | src/services/player.js:16-34 | `start` rejects with "playback is already in progress" and changes nothing while playing; otherwise it stores the recording and options, sets `startTime` to now, sets playing and not paused, sets `playOffset` and `playCursor` to 0, arms a fresh timer and plays audio exactly when `audioUrl` is non-empty; it keeps the invariant |
| Playback.PauseResult | src/services/player.js:37-51 | `pause` rejects when not playing and resolves with no change when already paused; otherwise it pauses the audio, cancels the timer, stores `resumeState = dumpState()`, clears `playInterval` and sets paused, leaving cursor, offset and registry alone; it keeps the invariant |
| Playback.PauseIdempotent | src/services/player.js:41-42 | a second pause changes nothing and settles as the first did |
| Playback.ResumeResult | src/services/player.js:54-71 | `resume` rejects when not playing; otherwise it clears paused, calls `registry.clear()` then `loadState(resumeState)`; a throwing load escapes with the registry cleared; otherwise the registry holds what was loaded, the clock is rebased so that a tick `d` ms later has budget `d`, and a fresh timer is armed; it keeps the invariant |
| Playback.ResumeWhilePlayingArmsSecondTimer | src/services/player.js:58-68 | resumed while not paused, playback arms a new timer and the old one stays live |
| Playback.StopResult | src/services/player.js:74-91 | `stop` resolves exactly when playing and otherwise rejects as `pause` does, with no change; when it resolves it has paused first unless already paused, and ends neither playing nor paused, with no options, audio or armed timer; it keeps the invariant |
| Playback.TickResult | src/services/player.js:97-155 | a tick keeps the invariant and never moves the cursor back; with no armed timer it changes nothing; after an armed tick, playback is still in progress exactly when events remain, is paused exactly when a dispatch threw (with that exception recorded), and the timer is cancelled exactly when the tick stopped or paused playback |
| Playback.TickUnarmed | src/services/player.js:99-100 | a tick with no armed timer returns without any change |
| Playback.TickKeepsInv | src/services/player.js:97-155 | every tick keeps the invariant |
| Playback.TickWalk | src/services/player.js:147-148 | an armed tick writes the walk's cursor to `playCursor` and adds `timeElapsed` to `playOffset`; it leaves `startTime` (the anchor of the next budget) and the next timer handle alone, and keeps the audio player while playback goes on |
| Playback.TickTrace | src/services/player.js:140-154 | the calls of an armed tick are those of its walk, then pause's calls if a dispatch threw or the recording ended, then `'done'` if it ended |
| Playback.TickPausesOnException | src/services/player.js:140-148 | when dispatching event k throws, `playCursor == k`, playback is paused with `exception` set and the state dumped, and the calls for the events before k stand |
| Playback.TickTail | src/services/player.js:149-154 | after its walk, an armed tick hands nothing more to the hook and emits `'done'` once if it reached the end |
| Playback.TickConsumesDueEvents | src/services/player.js:108-148 | a tick consumes an event only if `timeElapsed + delta <= playUntil`, and an early end without an exception is on an event not yet due; `playOffset` grows by the consumed deltas, plus the delta of the event that threw |
| Playback.WalkLooksUpInOrder | src/services/player.js:110-146 | with or without a hook, the walk of an armed tick looks up the targets of the events from `playCursor` onward, in recording order and each once: every consumed event, and at most the event that threw |
| Playback.WalkHooks | src/services/player.js:110-146 | the walk of an armed tick hands the hook the events from the cursor onward, in order and each once |
| Playback.TickHooksInOrder | src/services/player.js:110-148 | over an armed tick, `options.replayEvent` receives the events from `playCursor` onward, in recording order and each once: every consumed event, and at most the event that threw |
| Playback.TickWithoutHook | src/services/player.js:137-138 | with no hook in the options, a tick hands it nothing |
| Playback.TickHooksConsumed | src/services/player.js:110-148 | a tick in which nothing throws hands the hook exactly the events it consumed |
| Playback.TwoTicksHookEachEventOnce | src/services/player.js:101-148 | no double dispatch: over two successive ticks in which nothing throws, the hook receives each event from the cursor once, in order |
| Playback.TickEmitsDoneOnce | src/services/player.js:149-154 | the tick that ends playback emits `'done'` exactly once, as its last call; any other armed tick emits none |
| Playback.TickAfterPauseOrStop | src/services/player.js:98-100 | a tick that runs after a pause or a stop changes nothing |
| Playback.ReplayToTheEnd | src/services/player.js:97-155 | a reset followed by two events for "t1" 50 ms apart, ticked 100 ms after start, consumes all three events (the last exactly on the boundary), delivers both events to the "t1" the reset registered, and ends with `playOffset` 100, stopped, and one `'done'` as the last call |
| Player.Player.constructor | src/services/player.js:4-13 | the initial state: not playing, not paused, no timer |
| Player.Player.ArmTimer | src/services/player.js:25 | `$interval(playTick, 20)` makes a fresh live timer the current one |
| Player.Player.Begin | src/services/player.js:20-24 | stores options and recording, starts the clock, sets playing and not paused |
| Player.Player.PlayAudio | src/services/player.js:28-30 | holds the audio player and plays it |
| Player.Player.Start | src/services/player.js:16-34 | keeps the invariant and updates the fields in place exactly as `Playback.Start` says |
| Player.Player.Pause | src/services/player.js:37-51 | keeps the invariant and updates the fields in place exactly as `Playback.Pause` says |
| Player.Player.Reload | src/services/player.js:61-62 | `registry.clear()` then `loadState(x)`: the registry ends as the registered targets, or empty if the load threw |
| Player.Player.Resume | src/services/player.js:54-71 | keeps the invariant and updates the fields in place exactly as `Playback.Resume` says |
| Player.Player.Stop | src/services/player.js:74-91 | keeps the invariant and updates the fields in place exactly as `Playback.Stop` says |
| Player.Player.DispatchEvent | src/services/player.js:117-139 | the `try` block leaves the registry, the trace and the caught exception exactly as `PlayerSpec.Dispatch` says |
| Player.Player.ConsumeDue | src/services/player.js:108-146 | the `while` loop reaches exactly the cursor, `timeElapsed`, registry, trace and exception of `PlayerSpec.Consume` |
| Player.Player.Finish | src/services/player.js:149-154 | cancels the timer, clears `playInterval`, stops, emits `'done'`, as `Playback.Finish` says |
| Player.Player.Catch | src/services/player.js:140-145 | the `catch` block: records the exception and pauses, keeping the invariant, as `Playback.Pause` on that state says |
| Player.Player.Settle | src/services/player.js:140-154 | the code after the loop: pause on a caught exception, advance offset and cursor, finish at the end, as `Playback.Settle` says |
| Player.Player.Tick | src/services/player.js:97-155 | keeps the invariant and updates the fields in place exactly as `Playback.Tick` says |
| Buffers.DecimalString | js/services/buffers.js:41 | the decimal form of the counter is non-empty |
| Buffers.DecimalStringInjective | js/services/buffers.js:41 | different counter values have different decimal forms |
| Buffers.BufferName | js/services/buffers.js:41 | defines `'b' + nextId`; BufferNameInjective states that it is injective and BufferStore.Add that it is never minted twice |
| Buffers.BufferNameInjective | js/services/buffers.js:41 | different counter values give different names `'b' + nextId` |
| Buffers.LanguageOf | js/services/buffers.js:20 | the language is `options.language` when set and non-empty, otherwise `'text'` |
| Buffers.Initial | js/services/buffers.js:18-20 | a new buffer's text is the given text or `""`, its selection is `{0,0}-{0,0}`, and its language is as LanguageOf says |
| Buffers.Updated | js/services/buffers.js:22-28 | each of text, language and selection present in `attrs` is assigned, and each absent one is kept |
| Buffers.UpdatedIdempotent | js/services/buffers.js:22-28 | an update with no keys changes nothing; the same update applied twice equals it applied once |
| Buffers.UpdatedCommute | js/services/buffers.js:22-28 | updates of disjoint keys commute |
| Buffers.SignalName | js/services/buffers.js:36-38 | the emitted name is `'fioi-editor2_buffer-' + name + '_' + signal`: it has that length, starts with the prefix, holds `name` right after it, then `'_'`, then `signal` to the end |
| Buffers.SignalNameInjective | js/services/buffers.js:36-38 | the same signal of two different buffers has two different names |
| Buffers.Buffer.constructor | js/services/buffers.js:15-21 | stores name and options (`{}` when absent), with the contents of `Initial` |
| Buffers.Buffer.Update | js/services/buffers.js:22-30 | the contents become `Updated(old, attrs)`, the options are unchanged, and `'changed'` is emitted once |
| Buffers.Buffer.GetLanguages | js/services/buffers.js:31-35 | the buffer's own `options.languages` exactly when set; otherwise the tab's list |
| Buffers.Buffer.Emit | js/services/buffers.js:36-38 | `$rootScope.$emit` appends exactly the buffer's signal name |
| Buffers.BufferStore.constructor | js/services/buffers.js:11-13 | the table starts empty, with `nextId` 1 |
| Buffers.BufferStore.NextName | js/services/buffers.js:41 | the name the next `add` mints is not in the table |
| Buffers.BufferStore.Add | js/services/buffers.js:40-45 | returns a new buffer named `'b' + nextId`, a name never minted before (so not in the table, even after removals); `nextId` grows by 1; the table gains exactly that entry; `get(name)` then returns that buffer |
| Buffers.BufferStore.Remove | js/services/buffers.js:47-52 | deletes only that entry, is a no-op for an absent name, leaves `nextId` alone, and `get(name)` then finds nothing |
| Buffers.BufferStore.Get | js/services/buffers.js:54-56 | the stored buffer exactly when the name is in the table, and nothing otherwise; it changes nothing, and a stored buffer carries the name it is stored under |

## Left out

- `service.rewind` has an empty body, so there is nothing to model.
- The `$interval` period of 20 ms and real timing are not modelled. A tick is an explicit call to `Tick`, and a timer is a handle.
- `$q` promises are not modelled. A call settles at once as `Resolved`, `Rejected(reason)` or `Raised(ex)`. In the source, the `afterPaused` step of `stop` runs at a later digest, after `pause` resolves. In the model it runs at once, so the tick's `'done'` is logged after stop's state change rather than before.
- `Math.floor`, the audio position as a float and `Date.now()` are left out. The caller supplies integer milliseconds.
- `options.dumpState()` is not modelled as a call. Its result is a parameter `dumped`, and the model does not cover it throwing.
- The collaborators (`loadState`, the targets' and the options' `replayEvent`) are not modelled as code. They are deterministic functions of their arguments, and a target cannot change the registry.
- A `loadState` that throws leaves the registry empty in the model. In the source it may already have registered some targets.
- An exception thrown by `loadState` inside `resume` escapes the call as `Raised(ex)`. In the source it escapes the promise executor.
- The audio player, `FioiEditor2Registry` and `FioiEditor2Signals` are not modelled as objects. They appear only as the calls logged in `trace`, plus the registry as a map.
- `console.log` is not modelled.
- `state.events = undefined` in `stop` is not modelled, because that field is never read.
- The event payload `event[3]` is reduced to an optional session state. `typeof options.replayEvent === 'function'` is modelled as the hook being present.
- The initial `startTime`, `playOffset` and `playCursor`, which are `null`/`undefined` in the source, are 0 in the model.
- Player.Player.Resume: requires `Valid()`, the invariant that every state built by the constructor and the operations keeps. The source reads `state.options` there without a check, and the invariant guarantees options while playing.
- Player.Player.Tick: requires `Valid()` for the same reason (the source reads `state.recording` and `state.options`).
- Player.Player.Start, Player.Player.Pause, Player.Player.Stop: require `Valid()`, which every object built by the constructor satisfies and every method keeps, so that the invariant is part of the class contract. States outside the invariant are not covered.
- Playback.TickHooksInOrder: states that the event that threw reached the hook at most once, not whether it did. That depends on whether the target or the hook threw.
- Buffer text: `(text || "").toString()` is modelled for string or absent text only. Values that are not strings are not modelled.
- Buffer options: only the `language` and `languages` keys are modelled.
- In `update`, a key that is present with the value `undefined` is not modelled. A present key carries a value.
- `_.clone(attrs.selection)`: a selection is a value here, so the copy is implicit and no aliasing can arise.
- Buffers.Buffer.GetLanguages: the buffer keeps a copy of its options as a value. In the source `this.options` is the caller's object, kept by reference, so a later change to that object (for example to its `languages`) shows in `getLanguages`. The model does not capture that aliasing.
- `Buffer.tab` and the list that `tab.getLanguages()` returns are not modelled. `GetLanguages` returns `FromTab` for that case.
- Listeners of `$rootScope` are not modelled. Only the names of emitted events are logged.
- `'b' + nextId` is modelled with exact decimal digits. JavaScript switches to exponent notation from 10^21 on.
- Buffers.BufferStore.Add: the counter `nextId` is an unbounded natural in the model. In JavaScript it is a double, and from 2^53 on `nextId += 1` leaves it unchanged, so `add` would mint the previous name again and overwrite the stored buffer. The model's promises that `nextId` grows by 1 and that the name is new hold only below 2^53.
- Keys of `Object.prototype`, such as `get('toString')`, are not modelled. The table holds only the buffers added to it.
