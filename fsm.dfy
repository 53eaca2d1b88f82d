/** The debouncer state machine of lib/debouncer.js as pure transitions over the whole
    machine: state, pending-event buffer, pretimer, and the handler calls scheduled and
    running. The environment picks what happens next (a trigger task runs, the pretimer
    fires, the deferred handler call runs, or the handler calls done) and each step
    runs to completion. */
module Fsm {
  import opened Events
  import Timer
  import Pubsub

  /** The four states (lib/debouncer.js:5-8). */
  datatype State = Idle | Timing | Handling | Queueing

  /** The subscribers the debouncer puts on its bus, one per reaction. */
  datatype Reaction = OnTrigger | OnBootstrap | OnPretimerDone | OnHandlerDone

  datatype Machine = Machine(
    state: State,
    debounced: seq<Record>,      // the pending-event buffer
    pretimer: Timer.TimerState,
    scheduled: nat,              // `handle()` calls whose deferred handler call has not run yet
    inFlight: nat,               // handler calls whose done callback has not been called yet
    invoked: seq<seq<Record>>)   // the buffers the handler was called with, oldest first

  /** What the environment does next. */
  datatype Input =
    | Trigger(data: Option<Record>, now: int)  // the callback deferred by `trigger(data)` runs
    | Fire(id: nat)                            // the runtime fires the timeout scheduled under `id`
    | Invoke                                   // the handler call deferred by `handle()` runs
    | Done                                     // the running handler calls its done callback

  /** `handle()`: schedules one deferred handler call and nothing else. */
  function Handle(m: Machine): (r: Machine)
    ensures r.scheduled == m.scheduled + 1
    ensures r.state == m.state && r.debounced == m.debounced && r.pretimer == m.pretimer
    ensures r.inFlight == m.inFlight && r.invoked == m.invoked
  {
    m.(scheduled := m.scheduled + 1)
  }

  /** `bootstrapped(event)`. */
  function Bootstrapped(m: Machine, e: Record): (r: Machine)
    ensures r.state == Handling
    ensures r.debounced == m.debounced + [e]
    ensures r.scheduled == m.scheduled + 1
    ensures r.pretimer == m.pretimer && r.inFlight == m.inFlight && r.invoked == m.invoked
  {
    Handle(m.(debounced := m.debounced + [e])).(state := Handling)
  }

  /** `triggered(event)`: the pretimer is left running and the event goes at the end of
      the buffer; IDLE becomes TIMING and HANDLING becomes QUEUEING. */
  function Triggered(m: Machine, e: Record): (r: Machine)
    ensures Timer.Running(r.pretimer)
    ensures r.debounced == m.debounced + [e]
    ensures m.state == Idle ==> r.state == Timing
    ensures m.state == Handling ==> r.state == Queueing
    ensures m.state == Timing || m.state == Queueing ==> r.state == m.state
    ensures r.scheduled == m.scheduled && r.inFlight == m.inFlight && r.invoked == m.invoked
  {
    var m := m.(pretimer := Timer.Restarted(m.pretimer), debounced := m.debounced + [e]);
    match m.state
    case Idle => m.(state := Timing)
    case Handling => m.(state := Queueing)
    case _ => m
  }

  /** `pretimerFinished()`: from TIMING, exactly one handler call is scheduled and the
      state becomes HANDLING; in every other state nothing changes. */
  function PretimerFinished(m: Machine): (r: Machine)
    ensures m.state == Timing ==> r.state == Handling && r.scheduled == m.scheduled + 1
    ensures m.state == Timing ==> r == m.(state := Handling, scheduled := m.scheduled + 1)
    ensures m.state != Timing ==> r == m
  {
    // actions
    var m := if m.state == Timing then Handle(m) else m;
    // state transitions
    if m.state == Timing then m.(state := Handling) else m
  }

  /** The switch both copies of `handlerFinished` share, given the value `running` that
      the timer's `isRunning` reports: in QUEUEING a handler call is scheduled unless
      `running`, and the state becomes TIMING if `running`, else HANDLING; HANDLING
      becomes IDLE. */
  function OnDone(m: Machine, running: bool): (r: Machine)
    ensures r.debounced == m.debounced && r.pretimer == m.pretimer
    ensures r.inFlight == m.inFlight && r.invoked == m.invoked
    ensures m.state == Idle || m.state == Timing ==> r == m
    ensures m.state == Handling ==> r == m.(state := Idle)
    ensures m.state == Queueing && running ==> r == m.(state := Timing)
    ensures m.state == Queueing && !running ==> r == m.(state := Handling, scheduled := m.scheduled + 1)
  {
    // actions
    var m := if m.state == Queueing && !running then Handle(m) else m;
    // state transitions
    match m.state
    case Handling => m.(state := Idle)
    case Queueing => m.(state := if running then Timing else Handling)
    case _ => m
  }

  /** `handlerFinished()` of lib/debouncer.js: the buffer is replaced by an empty one in
      every state, then the shared switch runs with the real `isRunning()`. */
  function HandlerFinished(m: Machine): (r: Machine)
    ensures r.debounced == []
    ensures r.pretimer == m.pretimer && r.inFlight == m.inFlight && r.invoked == m.invoked
    ensures m.state == Idle || m.state == Timing ==> r.state == m.state && r.scheduled == m.scheduled
    ensures m.state == Handling ==> r.state == Idle && r.scheduled == m.scheduled
    ensures m.state == Queueing && Timer.Running(m.pretimer) ==> r.state == Timing && r.scheduled == m.scheduled
    ensures m.state == Queueing && !Timer.Running(m.pretimer) ==> r.state == Handling && r.scheduled == m.scheduled + 1
  {
    OnDone(m.(debounced := []), Timer.Running(m.pretimer))
  }

  /** Running one subscriber with the record it was published with. */
  function Dispatch(m: Machine, r: Reaction, info: Record): Machine {
    match r
    case OnTrigger => Triggered(m, info)
    case OnBootstrap => Bootstrapped(m, info)
    case OnPretimerDone => PretimerFinished(m)
    case OnHandlerDone => HandlerFinished(m)
  }

  /** Running the subscribers `subs` one after the other, as `publish` does. */
  function Deliver(m: Machine, subs: seq<Reaction>, info: Record): Machine
    decreases |subs|
  {
    if subs == [] then m
    else Dispatch(Deliver(m, subs[..|subs| - 1], info), subs[|subs| - 1], info)
  }

  /** The bus as the constructor leaves it (lib/debouncer.js:18-21). */
  function Table(): Pubsub.Table<Reaction> {
    map["trigger" := [OnTrigger], "bootstrap" := [OnBootstrap],
        "pretimer done" := [OnPretimerDone], "handler done" := [OnHandlerDone]]
  }

  /** The four `subscribe` calls of the constructor build exactly this table. */
  lemma TableBuilt()
    ensures Pubsub.Subscribed(Pubsub.Subscribed(Pubsub.Subscribed(Pubsub.Subscribed(
              map[], "trigger", OnTrigger), "bootstrap", OnBootstrap),
              "pretimer done", OnPretimerDone), "handler done", OnHandlerDone) == Table()
  {
    var t0: Pubsub.Table<Reaction> := map[];
    var t1 := Pubsub.Subscribed(t0, "trigger", OnTrigger);
    assert Pubsub.SubscribersOf(t0, "trigger") == [];
    var t2 := Pubsub.Subscribed(t1, "bootstrap", OnBootstrap);
    assert Pubsub.SubscribersOf(t1, "bootstrap") == [];
    var t3 := Pubsub.Subscribed(t2, "pretimer done", OnPretimerDone);
    assert Pubsub.SubscribersOf(t2, "pretimer done") == [];
    var t4 := Pubsub.Subscribed(t3, "handler done", OnHandlerDone);
    assert Pubsub.SubscribersOf(t3, "handler done") == [];
    assert t4.Keys == Table().Keys;
    assert t4["trigger"] == [OnTrigger] && t4["bootstrap"] == [OnBootstrap];
    assert t4["pretimer done"] == [OnPretimerDone] && t4["handler done"] == [OnHandlerDone];
    assert t4 == Table();
  }

  /** `this.pubsub.publish(name, data)` together with the reactions it runs. */
  function Publish(m: Machine, name: string, data: Option<Record>, now: int): Machine {
    Deliver(m, Pubsub.SubscribersOf(Table(), name), Pubsub.EventInfo(name, data, now))
  }

  /** Each of the four names has exactly its own reaction as subscriber. */
  lemma TableRoutes()
    ensures Pubsub.SubscribersOf(Table(), "trigger") == [OnTrigger]
    ensures Pubsub.SubscribersOf(Table(), "bootstrap") == [OnBootstrap]
    ensures Pubsub.SubscribersOf(Table(), "pretimer done") == [OnPretimerDone]
    ensures Pubsub.SubscribersOf(Table(), "handler done") == [OnHandlerDone]
  {
  }

  /** Running a single subscriber is dispatching to it. */
  lemma DeliverOne(m: Machine, r: Reaction, info: Record)
    ensures Deliver(m, [r], info) == Dispatch(m, r, info)
  {
    assert [r][..0] == [];
  }

  /** Each of the four names reaches exactly its own reaction. */
  lemma PublishRoutes(m: Machine, data: Option<Record>, now: int)
    ensures Publish(m, "trigger", data, now) == Triggered(m, Pubsub.EventInfo("trigger", data, now))
    ensures Publish(m, "bootstrap", data, now) == Bootstrapped(m, Pubsub.EventInfo("bootstrap", data, now))
    ensures Publish(m, "pretimer done", data, now) == PretimerFinished(m)
    ensures Publish(m, "handler done", data, now) == HandlerFinished(m)
  {
    TableRoutes();
    DeliverOne(m, OnTrigger, Pubsub.EventInfo("trigger", data, now));
    DeliverOne(m, OnBootstrap, Pubsub.EventInfo("bootstrap", data, now));
    DeliverOne(m, OnPretimerDone, Pubsub.EventInfo("pretimer done", data, now));
    DeliverOne(m, OnHandlerDone, Pubsub.EventInfo("handler done", data, now));
  }

  /** The machine right after `new Debouncer(latency, bootstrap, handler)`. */
  function Init(bootstrap: bool, now: int): (m: Machine)
    ensures !bootstrap ==> m.state == Idle && m.debounced == [] && m.scheduled == 0
    ensures bootstrap ==> m.state == Handling && m.scheduled == 1
    ensures bootstrap ==> m.debounced == [Pubsub.EventInfo("bootstrap", None, now)]
    ensures m.inFlight == 0 && m.invoked == [] && !Timer.Running(m.pretimer)
  {
    var m := Machine(Idle, [], Timer.Unstarted, 0, 0, []);
    if bootstrap then Bootstrapped(m, Pubsub.EventInfo("bootstrap", None, now)) else m
  }

  /** One step of the environment. */
  function Step(m: Machine, i: Input): Machine {
    match i
    case Trigger(data, now) =>
      Triggered(m, Pubsub.EventInfo("trigger", data, now))
    case Fire(id) =>
      var (t, finished) := Timer.Fired(m.pretimer, id);
      var m := m.(pretimer := t);
      if finished then PretimerFinished(m) else m        // the timer's action publishes "pretimer done"
    case Invoke =>
      if m.scheduled == 0 then m
      else m.(scheduled := m.scheduled - 1, inFlight := m.inFlight + 1,
              invoked := m.invoked + [m.debounced])       // the deferred call reads the buffer as it is now
    case Done =>
      if m.inFlight == 0 then m                          // no running handler holds a done callback
      else HandlerFinished(m.(inFlight := m.inFlight - 1))
  }

  /** The steps `ins`, in order. */
  function Run(m: Machine, ins: seq<Input>): Machine
    decreases |ins|
  {
    if ins == [] then m else Run(Step(m, ins[0]), ins[1..])
  }

  /** Running two traces one after the other is running the joined trace. */
  lemma {:induction false} RunAppend(m: Machine, a: seq<Input>, b: seq<Input>)
    ensures Run(m, a + b) == Run(Run(m, a), b)
    decreases |a|
  {
    if a == [] {
      assert a + b == b;
    } else {
      assert (a + b)[0] == a[0] && (a + b)[1..] == a[1..] + b;
      RunAppend(Step(m, a[0]), a[1..], b);
    }
  }

  /** The invariant of every reachable machine: IDLE has no pending work (an empty buffer);
      TIMING has the pretimer running, IDLE and HANDLING do not; at most one handler call
      is scheduled or running, and one is exactly when the state is HANDLING or QUEUEING;
      the pretimer has at most one scheduled fire, under the id it holds. */
  predicate Inv(m: Machine) {
    && Timer.Wf(m.pretimer) && Timer.Single(m.pretimer)
    && (m.state == Idle ==> m.debounced == [])
    && (m.state == Timing ==> Timer.Running(m.pretimer))
    && (m.state == Idle || m.state == Handling ==> !Timer.Running(m.pretimer))
    && m.scheduled + m.inFlight <= 1
    && (m.scheduled + m.inFlight == 1 <==> m.state == Handling || m.state == Queueing)
  }

  lemma InitInv(bootstrap: bool, now: int)
    ensures Inv(Init(bootstrap, now))
  {
  }

  lemma StepKeepsInv(m: Machine, i: Input)
    requires Inv(m)
    ensures Inv(Step(m, i))
  {
  }

  lemma {:induction false} RunKeepsInv(m: Machine, ins: seq<Input>)
    requires Inv(m)
    ensures Inv(Run(m, ins))
    decreases |ins|
  {
    if ins != [] {
      StepKeepsInv(m, ins[0]);
      RunKeepsInv(Step(m, ins[0]), ins[1..]);
    }
  }

  /** Whatever the environment does after construction, the invariant holds. */
  lemma ReachableInv(bootstrap: bool, now: int, ins: seq<Input>)
    ensures Inv(Run(Init(bootstrap, now), ins))
  {
    InitInv(bootstrap, now);
    RunKeepsInv(Init(bootstrap, now), ins);
  }

  /** After construction, a handler call is only scheduled from TIMING when the pretimer
      fires, or from QUEUEING when the running handler is done (bootstrap scheduling is
      part of construction, see Init). */
  lemma ScheduledOnlyFrom(m: Machine, i: Input)
    requires Inv(m)
    ensures Step(m, i).scheduled > m.scheduled ==>
      (i.Fire? && m.state == Timing) || (i.Done? && m.state == Queueing && m.inFlight == 1)
  {
  }
}
