# debounce, modelled in Dafny

`debounce` groups bursts of input events. A trigger restarts a quiet-period
timer. When the timer runs out, a handler is called with the buffer of events
gathered so far. While the handler runs, new triggers queue up. When the
handler calls its done callback, the debouncer either waits for the next quiet
period or calls the handler again at once. The repository ships this machinery
twice: as modules under `lib/`, and inlined in the executable `debounce.js`,
which also holds the command-line option handling. The model follows each copy
as written.

Modules, one per source entity:

- `Events`: the values an event record holds (strings, numbers, booleans, dates, and byte Buffers such as the stdin chunk that debounce.js:251 triggers with as `{data: data}`), and `Option`.
- `Pubsub` (lib/pubsub.js): the subscriber table, `subscribe`, and the record
  `publish` builds. Class `Pubsub.Pubsub` has `Publish` as a loop returning the
  ordered calls.
- `Noticer` (debounce.js:8-42): the executable's copy of the bus, specified with
  the same definitions.
- `Timer` (lib/timer.js): the timer's `id` plus the part of the runtime's timer
  queue it uses. `setTimeout` hands out fresh ids from a counter and marks them
  pending. `clearTimeout` drops an id from the pending set. The runtime can only
  fire a pending id, so a stale id does nothing. The pure functions `Started`,
  `Cancelled`, `Restarted` and `Fired` specify the methods of class
  `Timer.Timer`.
- `CliTimer` (debounce.js:44-76): the same timer whose `isRunning` getter
  reports the opposite, and whose `finish` calls the action unconditionally.
- `Fsm` (lib/debouncer.js): the four-state machine as pure transitions over the
  whole machine. The machine holds the state, the buffer, the pretimer, the
  handler calls scheduled by `handle()` and not yet run, and the calls whose done
  callback is still outstanding. Ghost history records every buffer the handler
  received. The environment chooses each step (`Input`): a deferred trigger task
  runs, the pretimer fires, the deferred handler call runs, or the running
  handler calls done. `Fsm.Inv` is the invariant of every reachable machine.
- `Debouncer` (lib/debouncer.js): the class. Its reactions are subscribers on
  its own bus, and every public step is proved to move the object exactly as
  `Fsm.Step` moves its abstraction.
- `CliFsm`, `CliDebouncer` (debounce.js:88-197): the same for the executable's
  copy. It consults the inverted getter and empties the buffer after posting
  "handler done".
- `Scenarios`: runs of the lib machine. The general lemmas cover a burst of any
  length, which gets exactly one handler call holding all of its events in
  arrival order, and any number of well-separated triggers, each with a call of
  its own. They start from rest, which is what every reachable IDLE machine is,
  and from construction. Concrete runs cover bootstrap alone and triggers during
  a handler call.
- `Handoff`: the corrected machine of the second finding below.
- `Cli` (debounce.js:200-372): `camelCase` as a pure function over a one-character
  `split` and `join`. `buildConfig` and the defaults loop of `getopts` are loops
  over option objects (`Props`: keys in insertion order plus a value map),
  specified by the folds `Rekey` and `Filled`.

## Model

| member | source | states |
|---|---|---|
| Pubsub.Subscribed | lib/pubsub.js:26-34 | the event gets a list if it had none; the subscriber is appended at the end unless already in it, in which case the table is unchanged; every other event's list is unchanged |
| Pubsub.SubscribeKeepsTableOk | lib/pubsub.js:27-33 | after `subscribe`, every registered name still maps to a non-empty list without duplicates |
| Pubsub.SubscribeIdempotent | lib/pubsub.js:30-32 | subscribing the same subscriber twice is subscribing once |
| Pubsub.EventInfo | lib/pubsub.js:8-20 | the record holds `name` = event name and `time`, plus every other field of the data; missing data counts as an empty record |
| Pubsub.Pubsub.constructor | lib/pubsub.js:2-4 | a new bus has no registered event |
| Pubsub.Pubsub.Publish | lib/pubsub.js:6-24 | an unregistered name yields no call; otherwise exactly one call per subscriber, in subscription order, all with the same record; the table is not modified |
| Pubsub.Pubsub.Subscribe | lib/pubsub.js:26-34 | the table becomes `Subscribed(old table, e, s)` and stays non-empty and duplicate-free |
| Noticer.Noticer.constructor | debounce.js:9-11 | a new noticer has no registered event |
| Noticer.Noticer.Post | debounce.js:13-31 | the same calls `publish` makes: none for an unregistered name, else one per subscriber in order with one shared record |
| Noticer.Noticer.Subscribe | debounce.js:33-41 | the same table update as `Pubsub.Pubsub.Subscribe` |
| Timer.Started | lib/timer.js:12-15 | afterwards the timer is running, under an id that was not pending before, which is now pending |
| Timer.Cancelled | lib/timer.js:25-29 | afterwards the timer is not running and the held id's fire is cleared; clearing `null` clears nothing |
| Timer.Restarted | lib/timer.js:31-34 | running again under a fresh id; the previously held id is no longer pending; at most one fire stays scheduled |
| Timer.Fired | lib/timer.js:17-23 | `finish` runs exactly when the fired id is still pending; a stale id changes nothing; after `finish` the timer is not running |
| Timer.CancelIdempotent | lib/timer.js:25-29 | cancelling twice is cancelling once |
| Timer.OnlyNewestFires | lib/timer.js:31-34 | after `restart`, every id but the newest fires as a no-op, and the newest one reaches `finish` |
| Timer.RestartedExactly | lib/timer.js:31-34 | with at most one scheduled fire, `restart` leaves exactly one, under the next fresh id |
| Timer.RestartsSupersede | lib/timer.js:31-34 | after any number of restarts in a row, only the last id is pending |
| Timer.Running | lib/timer.js:8-10 | `isRunning()`: the timer holds an id (defines the predicate; no contract of its own) |
| Timer.Timer.constructor | lib/timer.js:2-6 | `delay` and `action` are the arguments (they are constants, never reassigned); no id is held; not running |
| Timer.Timer.Start | lib/timer.js:12-15 | running; the state is `Started` of the old state; the new id was not pending |
| Timer.Timer.Cancel | lib/timer.js:25-29 | not running; the state is `Cancelled` of the old state |
| Timer.Timer.Finish | lib/timer.js:17-23 | the timer is cancelled (not running) before the action; the action is called only when one was supplied |
| Timer.Timer.Restart | lib/timer.js:31-34 | running; the state is `Restarted` of the old state |
| Timer.Timer.Fire | lib/timer.js:13 | the runtime running the callback scheduled under an id: the state is `Fired`, and the action is called exactly when `finish` ran and an action exists |
| Timer.Timer.IsRunning | lib/timer.js:8-10 | the object's `isRunning()` is `Running` of its abstract state (defines the predicate; no contract of its own) |
| CliTimer.ReportsRunningInverted | debounce.js:51-53 | the getter of debounce.js reports running exactly when lib's `isRunning()` reports not running |
| CliTimer.ReportsRunning | debounce.js:51-53 | the getter of debounce.js: true exactly when no id is held (defines the predicate; no contract of its own) |
| CliTimer.Timer.IsRunning | debounce.js:51-53 | the object's getter is `ReportsRunning` of its abstract state (defines the predicate; no contract of its own) |
| CliTimer.Timer.constructor | debounce.js:45-49 | a new timer holds no id, so the getter reports it running |
| CliTimer.Timer.Start | debounce.js:55-58 | after `start` the getter reports not running |
| CliTimer.Timer.Cancel | debounce.js:66-70 | after `cancel` the getter reports running |
| CliTimer.Timer.Finish | debounce.js:60-64 | cancels, then calls the action unconditionally |
| CliTimer.Timer.Restart | debounce.js:72-75 | after `restart` the getter reports not running; the state is `Restarted` of the old state |
| CliTimer.Timer.Fire | debounce.js:56 | the runtime firing an id: `finish` runs exactly when the id is pending |
| Fsm.Handle | lib/debouncer.js:47-51 | `handle()` schedules exactly one more deferred call; state, buffer, pretimer, running calls and history are unchanged |
| Fsm.Bootstrapped | lib/debouncer.js:54-61 | the event is appended, one handler call is scheduled, the state becomes HANDLING, nothing else changes |
| Fsm.Triggered | lib/debouncer.js:64-78 | the pretimer is left running and the event goes at the end of the buffer; IDLE becomes TIMING, HANDLING becomes QUEUEING, TIMING and QUEUEING stay |
| Fsm.PretimerFinished | lib/debouncer.js:81-95 | from TIMING: exactly one handler call scheduled and state HANDLING; any other state: nothing changes |
| Fsm.OnDone | lib/debouncer.js:101-117 | the switch of `handlerFinished`: HANDLING becomes IDLE; in QUEUEING, a running timer gives TIMING without scheduling, otherwise one call is scheduled and the state becomes HANDLING; IDLE and TIMING are unchanged |
| Fsm.HandlerFinished | lib/debouncer.js:98-118 | the buffer is empty in every state; the transitions of `OnDone` with the real `isRunning()` |
| Fsm.TableBuilt | lib/debouncer.js:17-21 | the four `subscribe` calls build exactly one subscriber per event name |
| Fsm.Dispatch | lib/debouncer.js:18-21 | one subscriber runs: each of the four reactions is the method it was bound to (a definition; no contract of its own) |
| Fsm.Deliver | lib/pubsub.js:21-23 | the subscribers run one after the other, in list order, each on the machine the previous one left (a definition; no contract of its own) |
| Fsm.Publish | lib/debouncer.js:24 | `this.pubsub.publish(name)`: the subscribers listed for the name in the table the constructor builds, delivered the same record (a definition; its routing is `PublishRoutes`) |
| Fsm.PublishRoutes | lib/debouncer.js:18-21 | publishing each of the four names runs exactly its own reaction |
| Fsm.Init | lib/debouncer.js:15-30 | a new debouncer is IDLE with an empty buffer; with bootstrap it is HANDLING with the one bootstrap event and one scheduled call; no call running, the pretimer not running |
| Fsm.InitInv | lib/debouncer.js:15-30 | the invariant (below) holds after construction, with or without bootstrap |
| Fsm.Step | lib/debouncer.js:22-24 | one step the environment chooses: the deferred trigger task publishes "trigger" (41-45); a pretimer fire runs `finish()` and publishes "pretimer done" only when its id is still pending (22-24); the deferred call hands the current buffer to the handler (47-51); done publishes "handler done" only while a call is running (a definition; its properties are `StepKeepsInv` and `ScheduledOnlyFrom`) |
| Fsm.StepKeepsInv | lib/debouncer.js:41-118 | every step of the environment preserves the invariant: IDLE has an empty buffer; TIMING has the pretimer running, IDLE and HANDLING do not; at most one call scheduled or running, one exactly in HANDLING and QUEUEING; at most one pretimer fire scheduled |
| Fsm.ReachableInv | lib/debouncer.js:14-119 | every machine reachable from construction satisfies the invariant, so in particular IDLE is always at rest (`Scenarios.IdleAtRest`) |
| Fsm.ScheduledOnlyFrom | lib/debouncer.js:81-107 | after construction a handler call is scheduled only by a pretimer fire in TIMING, or by done in QUEUEING with the call running |
| Debouncer.Debouncer.Wire | lib/debouncer.js:17-21 | a fresh bus carrying exactly the four subscriptions |
| Debouncer.Debouncer.constructor | lib/debouncer.js:15-30 | the object's abstraction is `Fsm.Init`, the pretimer's delay is the latency, and the invariant holds |
| Debouncer.Debouncer.Emit | lib/debouncer.js:43 | `this.pubsub.publish` runs the subscribers of the name one after the other: the object moves as `Fsm.Publish` |
| Debouncer.Debouncer.React | lib/debouncer.js:18-21 | one subscriber runs its reaction |
| Debouncer.Debouncer.Handle | lib/debouncer.js:47-51 | `handle()` only schedules a call; buffer and state are untouched |
| Debouncer.Debouncer.Bootstrapped | lib/debouncer.js:54-61 | moves as `Fsm.Bootstrapped` |
| Debouncer.Debouncer.Triggered | lib/debouncer.js:64-78 | moves as `Fsm.Triggered` |
| Debouncer.Debouncer.PretimerFinished | lib/debouncer.js:81-95 | moves as `Fsm.PretimerFinished` |
| Debouncer.Debouncer.HandlerFinished | lib/debouncer.js:98-118 | moves as `Fsm.HandlerFinished` |
| Debouncer.Debouncer.Trigger | lib/debouncer.js:41-45 | the deferred trigger task publishes "trigger": one `Fsm.Step`; the invariant is kept |
| Debouncer.Debouncer.Fire | lib/debouncer.js:22-24 | a pretimer fire: one `Fsm.Step`; the invariant is kept |
| Debouncer.Debouncer.RunHandler | lib/debouncer.js:48-49 | the deferred call runs when one is scheduled and returns the buffer as it is now; one `Fsm.Step` |
| Debouncer.Debouncer.HandlerDone | lib/debouncer.js:49 | the done callback publishes "handler done": one `Fsm.Step`; the invariant is kept |
| CliFsm.HandlerFinished | debounce.js:177-196 | in QUEUEING: a handler call is scheduled and the state becomes HANDLING exactly when the timer holds an id, otherwise TIMING; the buffer is not touched |
| CliFsm.TableBuilt | debounce.js:91-95 | the four `subscribe` calls build one subscriber per name |
| CliFsm.Dispatch | debounce.js:92-95 | one subscriber runs: each of the four reactions is the method it was bound to, with "timer done" reaching `timerFinished` (a definition; no contract of its own) |
| CliFsm.Deliver | debounce.js:28-30 | `post`'s loop: the subscribers run one after the other, in list order, each on the machine the previous one left (a definition; no contract of its own) |
| CliFsm.PostRoutes | debounce.js:92-95 | posting each of the four names runs exactly its own reaction |
| CliFsm.Post | debounce.js:13-31 | `this.noticer.post(name)`: the subscribers listed for the name in the table the constructor builds, run in order on one record (a definition; its routing is `PostRoutes`) |
| CliFsm.Step | debounce.js:115-128 | one step of the executable's copy: the same as `Fsm.Step` except done, which posts "handler done" and then empties the buffer (a definition; its properties are the lemmas below) |
| CliFsm.SameAsLibExceptDone | debounce.js:133-174 | a trigger, a timer fire and a deferred call step exactly as in lib |
| CliFsm.ClearOrderUnobservable | debounce.js:124-128 | the buffer is empty after the done callback; outside QUEUEING the callback ends where lib's does |
| CliFsm.DonePostsThenClears | debounce.js:125-128 | with a call running, done is posting "handler done" on the machine with one call fewer and then emptying the buffer; the call invariant is kept |
| CliFsm.CorrectedGetterIsLib | debounce.js:51-53 | with the getter reporting that an id is held, the done callback is exactly lib's step |
| CliFsm.StepKeepsCallInv | debounce.js:121-196 | every step keeps that IDLE has an empty buffer, at most one call is scheduled or running, one exactly in HANDLING and QUEUEING, with at most one timer fire scheduled |
| CliFsm.ReachableCallInv | debounce.js:88-197 | every machine reachable from construction satisfies that invariant |
| CliFsm.TriggerDuringCall | debounce.js:115-196 | a trigger, its fire, the handler call and a trigger during the call bring both copies to the same QUEUEING machine, whatever follows |
| CliFsm.StuckInTiming | debounce.js:181-193 | a run ending in TIMING with no fire scheduled, which breaks lib's invariant; no fire, call or done moves it |
| CliFsm.HandlesBeforeQuiet | debounce.js:181-193 | a run where a handler call is scheduled while the timer still runs; lib reaches TIMING on the same run |
| CliDebouncer.Debouncer.Wire | debounce.js:91-95 | a fresh noticer carrying exactly the four subscriptions |
| CliDebouncer.Debouncer.constructor | debounce.js:89-104 | the abstraction is `Fsm.Init`, the timer's delay is the latency, and the call invariant holds |
| CliDebouncer.Debouncer.Emit | debounce.js:28-30 | `this.noticer.post` runs the subscribers of the name in order: the object moves as `CliFsm.Post` |
| CliDebouncer.Debouncer.React | debounce.js:92-95 | one subscriber runs its reaction |
| CliDebouncer.Debouncer.Handle | debounce.js:121-122 | `handle()` only schedules a call |
| CliDebouncer.Debouncer.Bootstrapped | debounce.js:133-140 | moves as `Fsm.Bootstrapped` |
| CliDebouncer.Debouncer.Triggered | debounce.js:143-157 | moves as `Fsm.Triggered` |
| CliDebouncer.Debouncer.TimerFinished | debounce.js:160-174 | moves as `Fsm.PretimerFinished` |
| CliDebouncer.Debouncer.HandlerFinished | debounce.js:177-196 | moves as `CliFsm.HandlerFinished` |
| CliDebouncer.Debouncer.Trigger | debounce.js:115-119 | the deferred trigger task: one `CliFsm.Step` |
| CliDebouncer.Debouncer.Fire | debounce.js:96-98 | a timer fire: one `CliFsm.Step` |
| CliDebouncer.Debouncer.RunHandler | debounce.js:122-124 | the deferred call returns the buffer as it is now: one `CliFsm.Step` |
| CliDebouncer.Debouncer.HandlerDone | debounce.js:125-128 | posts "handler done", then empties the buffer: one `CliFsm.Step`, buffer empty afterwards |
| Scenarios.TriggerStep | lib/debouncer.js:64-78 | a trigger buffers the event and leaves exactly one fire scheduled, under the next fresh id |
| Scenarios.FireLive | lib/debouncer.js:81-95 | the live fire in TIMING schedules the handler call and stops the pretimer |
| Scenarios.FireStale | lib/timer.js:27 | a cleared or spent id fires as a no-op |
| Scenarios.InvokeStep | lib/debouncer.js:48-49 | the deferred call receives the buffer as it is |
| Scenarios.DoneHandling | lib/debouncer.js:98-113 | done from HANDLING: IDLE with an empty buffer |
| Scenarios.DoneQueueingRunning | lib/debouncer.js:98-117 | done from QUEUEING with the pretimer running: TIMING with an empty buffer |
| Scenarios.FirstCall | lib/debouncer.js:41-95 | one trigger, its fire and the call: handler gets the one event |
| Scenarios.ThreeTriggers | lib/debouncer.js:64-78 | three triggers: TIMING, all three events in order, only the third fire pending |
| Scenarios.QuietAfterBurst | lib/debouncer.js:81-95 | the two superseded fires do nothing; the live one leads to one call with the whole buffer |
| Scenarios.BurstOfThreeHandledOnce | lib/debouncer.js:64-95 | a burst of three triggers gives one handler call with the three events in arrival order |
| Scenarios.SecondCall | lib/debouncer.js:98-113 | done, then a new trigger and its fire: HANDLING with the new event only |
| Scenarios.TwoSeparatedTriggersHandledSingly | lib/debouncer.js:64-118 | two well-separated triggers give two calls of one event each, ending IDLE with an empty buffer |
| Scenarios.BootstrapAlone | lib/debouncer.js:27-29 | bootstrap with no trigger: one call with the bootstrap event, then IDLE |
| Scenarios.TriggersDuringCall | lib/debouncer.js:98-117 | two triggers during a call, then done: TIMING with an empty buffer |
| Scenarios.EventsDuringHandlerDropped | lib/debouncer.js:100 | the events triggered during a call reach no handler call: the next call gets an empty buffer |
| Scenarios.IdleAtRest | lib/debouncer.js:5 | a reachable IDLE machine is at rest: empty buffer, no call scheduled or running, no fire scheduled |
| Scenarios.BurstBuffered | lib/debouncer.js:64-78 | a burst of any length from IDLE or TIMING leaves TIMING with every event appended in arrival order and only the last trigger's fire scheduled |
| Scenarios.BurstFromRest | lib/debouncer.js:64-78 | a burst of any length from rest: TIMING, the burst's events in order, only the fire of the last trigger scheduled |
| Scenarios.QuietPeriod | lib/debouncer.js:81-95 | after a burst every fire but the live one does nothing, and the live one leads to exactly one call holding the whole buffer |
| Scenarios.BurstHandledOnce | lib/debouncer.js:10-11 | a burst of any length from rest: every superseded fire does nothing, and the quiet period gives exactly one handler call with all of the burst's events in arrival order |
| Scenarios.BurstAfterConstruction | lib/debouncer.js:10-11 | from construction, a burst of any length and its quiet period: one handler call, with exactly the burst's events |
| Scenarios.OneCycle | lib/debouncer.js:64-118 | one trigger from rest, its fire, the call and done: back at rest, the handler got that one event |
| Scenarios.CyclesFromRest | lib/debouncer.js:10-11 | any number of well-separated triggers from rest: one handler call per trigger, each holding just its event, in order, ending at rest |
| Scenarios.SeparatedTriggersHandledSingly | lib/debouncer.js:10-11 | the same from any reachable IDLE machine |
| Scenarios.SeparatedAfterConstruction | lib/debouncer.js:10-11 | from construction, any number of well-separated triggers: one call per trigger with just its event, ending IDLE with an empty buffer |
| Handoff.Step | debounce.js:213 | the corrected step: the deferred call takes the buffer and leaves an empty one; done runs `handlerFinished` without emptying the buffer; triggers and fires as in lib (a definition; its properties are the lemmas below) |
| Handoff.StepAgrees | lib/debouncer.js:41-118 | the corrected step agrees with lib's on trigger and fire, and on state, pretimer and call counts always; only the buffer hand-over differs |
| Handoff.StepConserves | debounce.js:213 | one corrected step only appends what it pushed to the delivered-then-pending events |
| Handoff.RunConserves | debounce.js:213 | the same over any run |
| Handoff.NoEventLost | debounce.js:213 | from construction, the buffers handed to the handler followed by the pending buffer are exactly the bootstrap event (if any) and every triggered event, in order |
| Handoff.StepKeepsInv | lib/debouncer.js:41-118 | the corrected step keeps `Fsm.Inv` (IDLE with an empty buffer included), and that HANDLING with a call running has an empty buffer |
| Handoff.ReachableInv | lib/debouncer.js:14-119 | every machine the corrected step reaches satisfies `Fsm.Inv` and that HANDLING with a call running has an empty buffer |
| Handoff.HandOver | debounce.js:213 | the corrected deferred call takes the whole buffer and leaves an empty one |
| Handoff.TwoTriggersQueued | lib/debouncer.js:64-78 | two triggers during a call buffer both events, QUEUEING |
| Handoff.EventsDuringHandlerKept | debounce.js:213 | on the run of `Scenarios.EventsDuringHandlerDropped`, the second call gets the two events triggered during the first |
| Cli.ToUpper | debounce.js:367 | upper-cases an ASCII lower-case letter, any other character unchanged; never creates or removes '-' |
| Cli.Split | debounce.js:362 | at least one part; no part holds the separator; a string without the separator is its own single part |
| Cli.SplitCount | debounce.js:362 | one part more than there are separators; the parts hold every other character |
| Cli.SplitJoin | debounce.js:362 | joining the parts with the separator gives the string back |
| Cli.JoinSplit | debounce.js:362 | splitting separator-free parts joined by the separator gives the parts back |
| Cli.Capitalize | debounce.js:365-368 | the empty part stays empty; otherwise first character upper-cased, rest kept |
| Cli.CapitalizedConcat | debounce.js:363-369 | the capitalized parts joined with '' are as long as the parts together, and hold no '-' when no part does |
| Cli.CamelCase | debounce.js:358-371 | input returned unchanged when it has no '-'; the output never contains '-' |
| Cli.CamelCaseShape | debounce.js:362-370 | the length drops by exactly the number of '-'; the first segment is a prefix of the result |
| Cli.CamelCaseIdempotent | debounce.js:358-371 | applying camelCase twice is applying it once |
| Cli.CamelCaseOfCamel | debounce.js:359-361 | a name without '-' is its own camelCase form |
| Cli.Set | debounce.js:338 | `o[k] = v`: an existing key keeps its place, a new key goes last; the value map is updated at `k` |
| Cli.Absent | debounce.js:336-337 | exactly the listed keys the options have no value for |
| Cli.Defaults | debounce.js:203-205 | the tool's defaults are well formed and hold exactly one key, "latency", valued 1500 |
| Cli.FilledLatencyKeys | debounce.js:336-340 | with the tool's defaults the filled key order is the option keys, plus "latency" appended when the options lack it |
| Cli.Filled | debounce.js:336-340 | the defaults loop as a fold over the default keys: the result stays well formed (keys without duplicates, every key valued) |
| Cli.FilledDomain | debounce.js:336-340 | filling keeps every option key and adds exactly the default keys |
| Cli.FilledValues | debounce.js:336-340 | an option with a value keeps it; every other key gets its default |
| Cli.FilledKeys | debounce.js:336-340 | the missing default keys are appended after the option keys, in default order |
| Cli.FilledAll | debounce.js:336-340 | the filled values are the defaults overridden by the options |
| Cli.FillDefaults | debounce.js:335-340 | the loop's result is `Filled`: options win over defaults, missing defaults appended in order |
| Cli.Rekey | debounce.js:350-353 | the `buildConfig` loop as a fold over the option keys: the result stays well formed |
| Cli.RekeyKeysFrom | debounce.js:350-353 | every output key is the camelCase form of some input key |
| Cli.RekeyKeysTo | debounce.js:350-353 | the camelCase form of every input key is an output key |
| Cli.RekeyLastWins | debounce.js:350-353 | the value under a camelCase name is that of the last input key with that form |
| Cli.RekeyNoHyphen | debounce.js:350-353 | no output key contains '-' |
| Cli.RekeyIdentity | debounce.js:350-353 | re-keying options without '-' keeps their keys, order and values, prefix by prefix |
| Cli.RekeyUnchanged | debounce.js:346-356 | options already in camelCase come out equal to themselves |
| Cli.BuildConfig | debounce.js:346-356 | the loop's result is `Rekey` of the options, well formed, with no '-' in any key |
| Cli.LatencyIsCamel | debounce.js:203-205 | the default option name "latency" is its own camelCase form |
| Cli.LatencyPresent | debounce.js:336-353 | after defaults and re-keying, "latency" is always configured |
| Cli.LatencyValue | debounce.js:336-353 | unless another option camelCases to "latency", its value is the given one, else 1500 |
| Cli.ConfiguredLatency | debounce.js:236-237 | both of the above for the configuration `run` builds |
| Cli.Configure | debounce.js:236-237 | `getopts`' defaults then `buildConfig`: latency always configured, with the value above |

## Left out

- Real time: `delay`, `latency` and `setTimeout`'s wait are carried but never measured. The environment decides when a fire happens. `time: new Date()` becomes the `now` parameter.
- The event loop: each reaction is one atomic step the environment chooses (`Fsm.Input`), not concurrency. Steps may come in any order the runtime could produce. The model also allows fires of ids that were cleared or already fired, which the runtime never delivers; they are no-ops.
- Timer ids: they come from a counter per timer, not from the runtime's shared counter. The `setTimeout` calls in `trigger` and `handle` are the environment's `Trigger` and `Invoke` steps and get no id.
- Array aliasing: the handler receives the live `debounced` array. In JavaScript, pushes made before the buffer is replaced are visible to a handler still holding that array. The model records the buffer as it was at the call (`invoked`), so a handler's later reads are not modelled.
- Handler obligations: `HandlerDone` requires a call to be running. A handler that calls done twice, or calls it for a call it never received, is not modelled.
- `CLI.run`, `CLI.handler`, `process.exit`, `child_process.spawn`, stdin listeners, piping, error messages and the output string are I/O.
- The getopts help and extra-argument checks (debounce.js:322-333) are I/O.
- Option parsing by node-getopt, `shell-quote` command parsing, the help text and `package.json` are foreign libraries.
- Function identity in `includes(subscriber)`: subscribers are values of an equality type (the four `Fsm.Reaction`s), not closures.
- Cli.ToUpper: covers ASCII letters only; Unicode case mapping of `toUpperCase` is not modelled.
- Option and record values: only strings, numbers, booleans, dates and byte Buffers; no nested objects or arrays. An option present with value `undefined` counts as absent, which is what `opts[opt] === undefined` treats it as, and its key moves to the end of the key order: in JavaScript the key keeps its place in `Object.keys` when the default fills it in, which can change which of two keys with the same camelCase form (`latency-` and `latency`) `buildConfig` keeps.
- `Object.keys` lists integer-like keys first in numeric order. `Props` keeps insertion order for every key.
- CliTimer.Timer.Finish: the action is never missing. The throw debounce.js would raise when calling a missing action is not modelled.
- CliDebouncer.Debouncer.constructor: its invariant is `CliFsm.CallInv`, weaker than `Fsm.Inv`, because the inverted getter breaks the timer part of lib's invariant (see Findings).
- Handoff.EventsDuringHandlerKept: the corrected machine is a separate model. `Debouncer` and `CliDebouncer` follow the code as written, which drops these events.

## Findings

| source | as written | input that shows it | evidently intended | confidence | as-written member | corrected member |
|---|---|---|---|---|---|---|
| debounce.js:51-53 | the `isRunning` getter returns `this.id === null`, true exactly when no fire is scheduled, so `handlerFinished` (debounce.js:181, 193) takes the wrong branch in QUEUEING | trigger, fire, handler call, a trigger during the call, its fire, done: the executable sits in TIMING with nothing scheduled, and only a new trigger moves it; with done before the second fire, a call is scheduled while the timer still runs | `this.id !== null`, as in lib/timer.js:8-10, which makes the callback exactly lib's and keeps `Fsm.Inv` (`Fsm.ReachableInv`) | high; not executed | CliFsm.StuckInTiming | CliFsm.CorrectedGetterIsLib |
| lib/debouncer.js:100 | the buffer is replaced by an empty one when a handler call completes, so events triggered while the handler runs are discarded (debounce.js:127 likewise) | trigger e1, fire, call, triggers e2 and e3 during the call, done, fire, call: the second call receives an empty buffer and e2, e3 reach no call | events arriving while the command runs form the next group (debounce.js:213): the deferred call takes the buffer and leaves an empty one, so every event reaches exactly one call, in order | medium; not executed | Scenarios.EventsDuringHandlerDropped | Handoff.NoEventLost |
