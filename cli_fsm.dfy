/** The debouncer state machine of debounce.js, the copy the executable runs. Its
    `bootstrapped`, `triggered` and `timerFinished` are those of lib/debouncer.js; its
    `handlerFinished` consults the inverted `isRunning` getter of debounce.js and does
    not touch the buffer, which the done callback empties after posting "handler done". */
module CliFsm {
  import opened Events
  import Timer
  import CliTimer
  import Pubsub
  import Fsm
  import Scenarios

  /** `handlerFinished()` of debounce.js: the shared switch, fed the getter's report. */
  function HandlerFinished(m: Fsm.Machine): (r: Fsm.Machine)
    ensures r.debounced == m.debounced && r.pretimer == m.pretimer
    ensures r.inFlight == m.inFlight && r.invoked == m.invoked
    ensures m.state == Fsm.Idle || m.state == Fsm.Timing ==> r == m
    ensures m.state == Fsm.Handling ==> r.state == Fsm.Idle && r.scheduled == m.scheduled
    ensures m.state == Fsm.Queueing && Timer.Running(m.pretimer) ==> r.state == Fsm.Handling && r.scheduled == m.scheduled + 1
    ensures m.state == Fsm.Queueing && !Timer.Running(m.pretimer) ==> r.state == Fsm.Timing && r.scheduled == m.scheduled
  {
    Fsm.OnDone(m, CliTimer.ReportsRunning(m.pretimer))
  }

  /** Running one subscriber of the `Noticer`. */
  function Dispatch(m: Fsm.Machine, r: Fsm.Reaction, info: Record): Fsm.Machine {
    match r
    case OnTrigger => Fsm.Triggered(m, info)
    case OnBootstrap => Fsm.Bootstrapped(m, info)
    case OnPretimerDone => Fsm.PretimerFinished(m)   // `timerFinished`, the same code
    case OnHandlerDone => HandlerFinished(m)
  }

  /** Running the subscribers `subs` one after the other, as `post` does. */
  function Deliver(m: Fsm.Machine, subs: seq<Fsm.Reaction>, info: Record): Fsm.Machine
    decreases |subs|
  {
    if subs == [] then m
    else Dispatch(Deliver(m, subs[..|subs| - 1], info), subs[|subs| - 1], info)
  }

  /** The noticer as the constructor leaves it (debounce.js:92-95). */
  function Table(): Pubsub.Table<Fsm.Reaction> {
    map["trigger" := [Fsm.OnTrigger], "bootstrap" := [Fsm.OnBootstrap],
        "timer done" := [Fsm.OnPretimerDone], "handler done" := [Fsm.OnHandlerDone]]
  }

  lemma TableBuilt()
    ensures Pubsub.Subscribed(Pubsub.Subscribed(Pubsub.Subscribed(Pubsub.Subscribed(
              map[], "trigger", Fsm.OnTrigger), "bootstrap", Fsm.OnBootstrap),
              "timer done", Fsm.OnPretimerDone), "handler done", Fsm.OnHandlerDone) == Table()
  {
    var t0: Pubsub.Table<Fsm.Reaction> := map[];
    var t1 := Pubsub.Subscribed(t0, "trigger", Fsm.OnTrigger);
    assert Pubsub.SubscribersOf(t0, "trigger") == [];
    var t2 := Pubsub.Subscribed(t1, "bootstrap", Fsm.OnBootstrap);
    assert Pubsub.SubscribersOf(t1, "bootstrap") == [];
    var t3 := Pubsub.Subscribed(t2, "timer done", Fsm.OnPretimerDone);
    assert Pubsub.SubscribersOf(t2, "timer done") == [];
    var t4 := Pubsub.Subscribed(t3, "handler done", Fsm.OnHandlerDone);
    assert Pubsub.SubscribersOf(t3, "handler done") == [];
    assert t4.Keys == Table().Keys;
    assert t4["trigger"] == [Fsm.OnTrigger] && t4["bootstrap"] == [Fsm.OnBootstrap];
    assert t4["timer done"] == [Fsm.OnPretimerDone] && t4["handler done"] == [Fsm.OnHandlerDone];
    assert t4 == Table();
  }

  /** `this.noticer.post(name, data)` together with the reactions it runs. */
  function Post(m: Fsm.Machine, name: string, data: Option<Record>, now: int): Fsm.Machine {
    Deliver(m, Pubsub.SubscribersOf(Table(), name), Pubsub.EventInfo(name, data, now))
  }

  lemma PostRoutes(m: Fsm.Machine, data: Option<Record>, now: int)
    ensures Post(m, "trigger", data, now) == Fsm.Triggered(m, Pubsub.EventInfo("trigger", data, now))
    ensures Post(m, "bootstrap", data, now) == Fsm.Bootstrapped(m, Pubsub.EventInfo("bootstrap", data, now))
    ensures Post(m, "timer done", data, now) == Fsm.PretimerFinished(m)
    ensures Post(m, "handler done", data, now) == HandlerFinished(m)
  {
    assert Pubsub.SubscribersOf(Table(), "trigger") == [Fsm.OnTrigger];
    assert Pubsub.SubscribersOf(Table(), "bootstrap") == [Fsm.OnBootstrap];
    assert Pubsub.SubscribersOf(Table(), "timer done") == [Fsm.OnPretimerDone];
    assert Pubsub.SubscribersOf(Table(), "handler done") == [Fsm.OnHandlerDone];
  }

  /** One step of the environment. Construction is `Fsm.Init`: the constructor of
      debounce.js does what lib's does. A trigger, a timer fire (whose action posts
      "timer done", routed to the same reaction by `PostRoutes`) and a deferred handler
      call are lib's steps; only the done callback differs. */
  function Step(m: Fsm.Machine, i: Fsm.Input): Fsm.Machine {
    match i
    case Done =>
      if m.inFlight == 0 then m
      else HandlerFinished(m.(inFlight := m.inFlight - 1)).(debounced := [])   // post, then clear
    case _ => Fsm.Step(m, i)
  }

  function Run(m: Fsm.Machine, ins: seq<Fsm.Input>): Fsm.Machine
    decreases |ins|
  {
    if ins == [] then m else Run(Step(m, ins[0]), ins[1..])
  }

  /** A trigger, a timer fire and a deferred handler call step exactly as in lib. */
  lemma SameAsLibExceptDone(m: Fsm.Machine, i: Fsm.Input)
    requires !i.Done?
    ensures Step(m, i) == Fsm.Step(m, i)
  {
  }

  /** Clearing after posting instead of before changes nothing: outside QUEUEING the done
      callback of debounce.js ends where lib's does, and in every state the buffer is
      empty afterwards. */
  lemma ClearOrderUnobservable(m: Fsm.Machine)
    ensures m.state != Fsm.Queueing ==> Step(m, Fsm.Done) == Fsm.Step(m, Fsm.Done)
    ensures m.inFlight > 0 ==> Step(m, Fsm.Done).debounced == []
  {
  }

  /** With the getter corrected to report that an id is held, the done callback of
      debounce.js is lib's in every state, so Fsm.ReachableInv covers it. */
  lemma CorrectedGetterIsLib(m: Fsm.Machine)
    requires m.inFlight > 0
    ensures var m' := m.(inFlight := m.inFlight - 1);
      Fsm.OnDone(m', Timer.Running(m'.pretimer)).(debounced := []) == Fsm.Step(m, Fsm.Done)
  {
  }

  /** The part of lib's invariant that survives in debounce.js: IDLE has an empty buffer,
      the timer has at most one scheduled fire, and at most one handler call is scheduled
      or running, one exactly in HANDLING and QUEUEING. */
  predicate CallInv(m: Fsm.Machine) {
    && Timer.Wf(m.pretimer) && Timer.Single(m.pretimer)
    && (m.state == Fsm.Idle ==> m.debounced == [])
    && m.scheduled + m.inFlight <= 1
    && (m.scheduled + m.inFlight == 1 <==> m.state == Fsm.Handling || m.state == Fsm.Queueing)
  }

  lemma StepKeepsCallInv(m: Fsm.Machine, i: Fsm.Input)
    requires CallInv(m)
    ensures CallInv(Step(m, i))
  {
  }

  lemma {:induction false} RunKeepsCallInv(m: Fsm.Machine, ins: seq<Fsm.Input>)
    requires CallInv(m)
    ensures CallInv(Run(m, ins))
    decreases |ins|
  {
    if ins != [] {
      StepKeepsCallInv(m, ins[0]);
      RunKeepsCallInv(Step(m, ins[0]), ins[1..]);
    }
  }

  /** In the executable, too, the handler is never called while another call is pending. */
  lemma ReachableCallInv(bootstrap: bool, now: int, ins: seq<Fsm.Input>)
    ensures CallInv(Run(Fsm.Init(bootstrap, now), ins))
  {
    Fsm.InitInv(bootstrap, now);
    RunKeepsCallInv(Fsm.Init(bootstrap, now), ins);
  }

  /** The run both findings share, on concrete machines: a trigger, its quiet period,
      the handler call, and a trigger while the handler runs, followed by any `rest`.
      Up to there both copies are in QUEUEING with the second fire scheduled. */
  lemma TriggerDuringCall(d1: Option<Record>, d2: Option<Record>, t0: int, t1: int, t2: int,
                          rest: seq<Fsm.Input>)
    ensures var e1, e2 := Scenarios.Ev(d1, t1), Scenarios.Ev(d2, t2);
      var m4 := Fsm.Machine(Fsm.Queueing, [e1, e2], Timer.TimerState(Some(1), {1}, 2), 0, 1, [[e1]]);
      && Run(Fsm.Init(false, t0), [Fsm.Trigger(d1, t1), Fsm.Fire(0), Fsm.Invoke, Fsm.Trigger(d2, t2)] + rest)
           == Run(m4, rest)
      && Fsm.Run(Fsm.Init(false, t0), [Fsm.Trigger(d1, t1), Fsm.Fire(0), Fsm.Invoke, Fsm.Trigger(d2, t2)] + rest)
           == Fsm.Run(m4, rest)
  {
    var e1, e2 := Scenarios.Ev(d1, t1), Scenarios.Ev(d2, t2);
    var m0 := Fsm.Init(false, t0);
    assert m0 == Fsm.Machine(Fsm.Idle, [], Timer.TimerState(None, {}, 0), 0, 0, []);
    Scenarios.TriggerStep(m0, d1, t1);
    var m1 := Fsm.Machine(Fsm.Timing, [e1], Timer.TimerState(Some(0), {0}, 1), 0, 0, []);
    assert Fsm.Step(m0, Fsm.Trigger(d1, t1)) == m1;
    Scenarios.FireLive(m1, 0, 1);
    var m2 := Fsm.Machine(Fsm.Handling, [e1], Timer.TimerState(None, {}, 1), 1, 0, []);
    assert Fsm.Step(m1, Fsm.Fire(0)) == m2;
    Scenarios.InvokeStep(m2);
    var m3 := Fsm.Machine(Fsm.Handling, [e1], Timer.TimerState(None, {}, 1), 0, 1, [[e1]]);
    assert Fsm.Step(m2, Fsm.Invoke) == m3;
    Scenarios.TriggerStep(m3, d2, t2);
    var m4 := Fsm.Machine(Fsm.Queueing, [e1, e2], Timer.TimerState(Some(1), {1}, 2), 0, 1, [[e1]]);
    assert Fsm.Step(m3, Fsm.Trigger(d2, t2)) == m4;
    var r3 := [Fsm.Trigger(d2, t2)] + rest;
    var r2 := [Fsm.Invoke] + r3;
    var r1 := [Fsm.Fire(0)] + r2;
    assert [Fsm.Trigger(d1, t1), Fsm.Fire(0), Fsm.Invoke, Fsm.Trigger(d2, t2)] + rest == [Fsm.Trigger(d1, t1)] + r1;
    RunStep(m0, Fsm.Trigger(d1, t1), r1);
    RunStep(m1, Fsm.Fire(0), r2);
    RunStep(m2, Fsm.Invoke, r3);
    RunStep(m3, Fsm.Trigger(d2, t2), rest);
    LibRunStep(m0, Fsm.Trigger(d1, t1), r1);
    LibRunStep(m1, Fsm.Fire(0), r2);
    LibRunStep(m2, Fsm.Invoke, r3);
    LibRunStep(m3, Fsm.Trigger(d2, t2), rest);
  }

  /** One step of lib, then the rest of the trace. */
  lemma LibRunStep(m: Fsm.Machine, i: Fsm.Input, rest: seq<Fsm.Input>)
    ensures Fsm.Run(m, [i] + rest) == Fsm.Run(Fsm.Step(m, i), rest)
  {
    assert ([i] + rest)[0] == i && ([i] + rest)[1..] == rest;
  }

  /** One step of debounce.js, then the rest of the trace. */
  lemma RunStep(m: Fsm.Machine, i: Fsm.Input, rest: seq<Fsm.Input>)
    ensures Run(m, [i] + rest) == Run(Step(m, i), rest)
  {
    assert ([i] + rest)[0] == i && ([i] + rest)[1..] == rest;
  }

  /** The done callback with a call running: "handler done" is posted on the machine
      with one call fewer, then the buffer is emptied, and the call invariant is kept. */
  lemma DonePostsThenClears(m0: Fsm.Machine, m1: Fsm.Machine)
    requires m0.inFlight > 0 && m1 == m0.(inFlight := m0.inFlight - 1)
    ensures Step(m0, Fsm.Done) == HandlerFinished(m1).(debounced := [])
    ensures CallInv(m0) ==> CallInv(HandlerFinished(m1).(debounced := []))
  {
    if CallInv(m0) {
      StepKeepsCallInv(m0, Fsm.Done);
    }
  }

  /** A trigger arrives while the handler runs and the quiet period elapses before the
      handler is done: debounce.js then goes to TIMING with no timer scheduled, where no
      fire, handler call or done can move it; only a further trigger does. */
  lemma StuckInTiming(d1: Option<Record>, d2: Option<Record>, t0: int, t1: int, t2: int)
    ensures var m := Run(Fsm.Init(false, t0), [Fsm.Trigger(d1, t1), Fsm.Fire(0), Fsm.Invoke, Fsm.Trigger(d2, t2), Fsm.Fire(1), Fsm.Done]);
      && m.state == Fsm.Timing && !Timer.Running(m.pretimer) && !Fsm.Inv(m)
      && m.pretimer.pending == {} && m.scheduled == 0 && m.inFlight == 0
      && (forall id: nat :: Step(m, Fsm.Fire(id)) == m)
      && Step(m, Fsm.Invoke) == m && Step(m, Fsm.Done) == m
  {
    var e1, e2 := Scenarios.Ev(d1, t1), Scenarios.Ev(d2, t2);
    var pre := [Fsm.Trigger(d1, t1), Fsm.Fire(0), Fsm.Invoke, Fsm.Trigger(d2, t2)];
    assert pre + [Fsm.Fire(1), Fsm.Done] == [Fsm.Trigger(d1, t1), Fsm.Fire(0), Fsm.Invoke, Fsm.Trigger(d2, t2), Fsm.Fire(1), Fsm.Done];
    TriggerDuringCall(d1, d2, t0, t1, t2, [Fsm.Fire(1), Fsm.Done]);
    var m4 := Fsm.Machine(Fsm.Queueing, [e1, e2], Timer.TimerState(Some(1), {1}, 2), 0, 1, [[e1]]);
    Timer.FiredCurrent(1, 2);
    var m5 := Fsm.Machine(Fsm.Queueing, [e1, e2], Timer.TimerState(None, {}, 2), 0, 1, [[e1]]);
    assert Step(m4, Fsm.Fire(1)) == m5;
    var m6 := Fsm.Machine(Fsm.Timing, [], Timer.TimerState(None, {}, 2), 0, 0, [[e1]]);
    assert Step(m5, Fsm.Done) == m6;
    RunStep(m4, Fsm.Fire(1), [Fsm.Done]);
    RunStep(m5, Fsm.Done, []);
    forall id: nat
      ensures Step(m6, Fsm.Fire(id)) == m6
    {
      Scenarios.FireStale(m6, id);
    }
  }

  /** A trigger arrives while the handler runs and the handler is done before the quiet
      period elapses: debounce.js schedules the next handler call at once, while the timer
      is still running, instead of waiting for the quiet period (lib goes to TIMING). */
  lemma HandlesBeforeQuiet(d1: Option<Record>, d2: Option<Record>, t0: int, t1: int, t2: int)
    ensures var ins := [Fsm.Trigger(d1, t1), Fsm.Fire(0), Fsm.Invoke, Fsm.Trigger(d2, t2), Fsm.Done];
      var m := Run(Fsm.Init(false, t0), ins);
      && m.state == Fsm.Handling && Timer.Running(m.pretimer) && m.scheduled == 1 && !Fsm.Inv(m)
      && Fsm.Run(Fsm.Init(false, t0), ins).state == Fsm.Timing
  {
    var e1, e2 := Scenarios.Ev(d1, t1), Scenarios.Ev(d2, t2);
    var pre := [Fsm.Trigger(d1, t1), Fsm.Fire(0), Fsm.Invoke, Fsm.Trigger(d2, t2)];
    assert pre + [Fsm.Done] == [Fsm.Trigger(d1, t1), Fsm.Fire(0), Fsm.Invoke, Fsm.Trigger(d2, t2), Fsm.Done];
    TriggerDuringCall(d1, d2, t0, t1, t2, [Fsm.Done]);
    var m4 := Fsm.Machine(Fsm.Queueing, [e1, e2], Timer.TimerState(Some(1), {1}, 2), 0, 1, [[e1]]);
    var m5 := Fsm.Machine(Fsm.Handling, [], Timer.TimerState(Some(1), {1}, 2), 1, 0, [[e1]]);
    assert Step(m4, Fsm.Done) == m5;
    Scenarios.DoneQueueingRunning(m4);
    var l5 := Fsm.Machine(Fsm.Timing, [], Timer.TimerState(Some(1), {1}, 2), 0, 0, [[e1]]);
    assert Fsm.Step(m4, Fsm.Done) == l5;
    RunStep(m4, Fsm.Done, []);
    LibRunStep(m4, Fsm.Done, []);
  }
}
