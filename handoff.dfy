/** The machine of lib/debouncer.js with the buffer handed over instead of replaced:
    the deferred handler call takes the buffer and leaves an empty one behind, and
    `handlerFinished` no longer touches the buffer. Everything else is the same step.
    With this one change every event reaches exactly one handler call, in order. */
module Handoff {
  import opened Events
  import Timer
  import Pubsub
  import Fsm
  import Scenarios

  /** One step of the environment on the corrected machine. */
  function Step(m: Fsm.Machine, i: Fsm.Input): Fsm.Machine {
    match i
    case Invoke =>
      if m.scheduled == 0 then m
      else m.(scheduled := m.scheduled - 1, inFlight := m.inFlight + 1,
              invoked := m.invoked + [m.debounced], debounced := [])
    case Done =>
      if m.inFlight == 0 then m
      else Fsm.OnDone(m.(inFlight := m.inFlight - 1), Timer.Running(m.pretimer))
    case _ => Fsm.Step(m, i)
  }

  /** The corrected step differs from the original one only in the buffer and in what
      the handler receives: a trigger or a fire is the same step, the deferred call
      leaves an empty buffer, done keeps the buffer, and state, pretimer and call
      counts always agree. */
  lemma StepAgrees(m: Fsm.Machine, i: Fsm.Input)
    ensures var r := Step(m, i);
      && (!i.Invoke? && !i.Done? ==> r == Fsm.Step(m, i))
      && (i.Invoke? && m.scheduled > 0 ==> r.debounced == [] && r.invoked == m.invoked + [m.debounced])
      && (i.Done? ==> r.debounced == m.debounced && r.invoked == m.invoked)
      && r.state == Fsm.Step(m, i).state && r.pretimer == Fsm.Step(m, i).pretimer
      && r.scheduled == Fsm.Step(m, i).scheduled && r.inFlight == Fsm.Step(m, i).inFlight
  {
  }

  function Run(m: Fsm.Machine, ins: seq<Fsm.Input>): Fsm.Machine
    decreases |ins|
  {
    if ins == [] then m else Run(Step(m, ins[0]), ins[1..])
  }

  /** All handler buffers, one after the other. */
  function Flatten(bs: seq<seq<Record>>): seq<Record>
    decreases |bs|
  {
    if bs == [] then [] else Flatten(bs[..|bs| - 1]) + bs[|bs| - 1]
  }

  /** The event a step puts in the buffer, if any. */
  function Pushed(i: Fsm.Input): seq<Record> {
    if i.Trigger? then [Pubsub.EventInfo("trigger", i.data, i.now)] else []
  }

  /** The events the steps `ins` put in the buffer, in order. */
  function AllPushed(ins: seq<Fsm.Input>): seq<Record>
    decreases |ins|
  {
    if ins == [] then [] else Pushed(ins[0]) + AllPushed(ins[1..])
  }

  /** Delivered events followed by pending ones: one step only appends what it pushed. */
  lemma StepConserves(m: Fsm.Machine, i: Fsm.Input)
    ensures Flatten(Step(m, i).invoked) + Step(m, i).debounced
         == Flatten(m.invoked) + m.debounced + Pushed(i)
  {
    var r := Step(m, i);
    if i.Invoke? && m.scheduled > 0 {
      assert r.invoked[..|r.invoked| - 1] == m.invoked;
    } else if i.Fire? {
      var (t, finished) := Timer.Fired(m.pretimer, i.id);
      assert r.debounced == m.debounced && r.invoked == m.invoked;
    }
  }

  lemma AppendAssoc(a: seq<Record>, b: seq<Record>, c: seq<Record>)
    ensures a + b + c == a + (b + c)
  {
  }

  lemma {:induction false} RunConserves(m: Fsm.Machine, ins: seq<Fsm.Input>)
    ensures Flatten(Run(m, ins).invoked) + Run(m, ins).debounced
         == Flatten(m.invoked) + m.debounced + AllPushed(ins)
    decreases |ins|
  {
    if ins != [] {
      var m' := Step(m, ins[0]);
      var r := Run(m', ins[1..]);
      assert Run(m, ins) == r;
      var before, pushed, rest := Flatten(m.invoked) + m.debounced, Pushed(ins[0]), AllPushed(ins[1..]);
      assert AllPushed(ins) == pushed + rest;
      StepConserves(m, ins[0]);
      assert Flatten(m'.invoked) + m'.debounced == before + pushed;
      RunConserves(m', ins[1..]);
      assert Flatten(r.invoked) + r.debounced == before + pushed + rest;
      AppendAssoc(before, pushed, rest);
    }
  }

  /** No event is lost or duplicated: from construction, the buffers the handler
      received, followed by the buffer still pending, are the bootstrap event (if any)
      and then every triggered event, in trigger order. */
  lemma NoEventLost(bootstrap: bool, now: int, ins: seq<Fsm.Input>)
    ensures var m := Run(Fsm.Init(bootstrap, now), ins);
      Flatten(m.invoked) + m.debounced
        == (if bootstrap then [Pubsub.EventInfo("bootstrap", None, now)] else []) + AllPushed(ins)
  {
    RunConserves(Fsm.Init(bootstrap, now), ins);
  }

  /** The invariant of the corrected machine: lib's invariant, and while the handler runs
      in HANDLING the buffer it was handed has been emptied. */
  predicate Inv(m: Fsm.Machine) {
    && Fsm.Inv(m)
    && (m.state == Fsm.Handling && m.inFlight > 0 ==> m.debounced == [])
  }

  /** The correction changes only the buffer, so the invariant of Fsm still holds. */
  lemma StepKeepsInv(m: Fsm.Machine, i: Fsm.Input)
    requires Inv(m)
    ensures Inv(Step(m, i))
  {
    Fsm.StepKeepsInv(m, i);
    StepAgrees(m, i);
  }

  lemma {:induction false} RunKeepsInv(m: Fsm.Machine, ins: seq<Fsm.Input>)
    requires Inv(m)
    ensures Inv(Run(m, ins))
    decreases |ins|
  {
    if ins != [] {
      StepKeepsInv(m, ins[0]);
      RunKeepsInv(Step(m, ins[0]), ins[1..]);
    }
  }

  lemma ReachableInv(bootstrap: bool, now: int, ins: seq<Fsm.Input>)
    ensures Inv(Run(Fsm.Init(bootstrap, now), ins))
  {
    Fsm.InitInv(bootstrap, now);
    RunKeepsInv(Fsm.Init(bootstrap, now), ins);
  }

  /** Running two traces one after the other is running the joined trace. */
  lemma {:induction false} RunAppend(m: Fsm.Machine, a: seq<Fsm.Input>, b: seq<Fsm.Input>)
    ensures Run(m, a + b) == Run(Run(m, a), b)
    decreases |a|
  {
    if a == [] {
      assert a + b == b;
    } else {
      assert (a + b)[0] == a[0] && (a + b)[1..] == a[1..] + b;
      RunAppend(Step(m, a[0]), a[1..], b);
    }
  }

  lemma Run2(m: Fsm.Machine, a: Fsm.Input, b: Fsm.Input)
    ensures Run(m, [a, b]) == Step(Step(m, a), b)
  {
    assert [a, b][1..] == [b];
    assert Run(Step(m, a), [b]) == Step(Step(m, a), b);
  }

  lemma Run3(m: Fsm.Machine, a: Fsm.Input, b: Fsm.Input, c: Fsm.Input)
    ensures Run(m, [a, b, c]) == Step(Step(Step(m, a), b), c)
  {
    assert [a, b, c][1..] == [b, c];
    Run2(Step(m, a), b, c);
  }

  /** An eight-step trace run as three stages of three, three and two steps. */
  lemma Run332(m: Fsm.Machine, a: Fsm.Input, b: Fsm.Input, c: Fsm.Input, d: Fsm.Input,
               e: Fsm.Input, f: Fsm.Input, g: Fsm.Input, h: Fsm.Input)
    ensures Run(m, [a, b, c, d, e, f, g, h]) == Run(Run(Run(m, [a, b, c]), [d, e, f]), [g, h])
  {
    assert [d, e, f] + [g, h] == [d, e, f, g, h];
    assert [a, b, c, d, e, f, g, h] == [a, b, c] + [d, e, f, g, h];
    RunAppend(m, [a, b, c], [d, e, f] + [g, h]);
    RunAppend(Run(m, [a, b, c]), [d, e, f], [g, h]);
  }

  /** The deferred handler call takes the whole buffer and leaves an empty one. */
  lemma HandOver(m: Fsm.Machine)
    requires m.scheduled > 0
    ensures Step(m, Fsm.Invoke)
         == m.(scheduled := m.scheduled - 1, inFlight := m.inFlight + 1,
               invoked := m.invoked + [m.debounced], debounced := [])
  {
  }

  /** A trigger is the same step as on the machine of lib/debouncer.js. */
  lemma TriggerStep(m: Fsm.Machine, d: Option<Record>, t: int)
    requires Timer.Wf(m.pretimer) && Timer.Single(m.pretimer)
    ensures Step(m, Fsm.Trigger(d, t))
         == m.(state := Scenarios.AfterTrigger(m.state), debounced := m.debounced + [Scenarios.Ev(d, t)],
               pretimer := Timer.TimerState(Some(m.pretimer.nextId), {m.pretimer.nextId}, m.pretimer.nextId + 1))
  {
    Scenarios.TriggerStep(m, d, t);
  }

  /** Done from QUEUEING while the pretimer runs: back to TIMING, buffer kept. */
  lemma DoneQueueingRunning(m: Fsm.Machine)
    requires m.inFlight > 0 && m.state == Fsm.Queueing && Timer.Running(m.pretimer)
    ensures Step(m, Fsm.Done) == m.(state := Fsm.Timing, inFlight := m.inFlight - 1)
  {
  }

  /** The first trigger, its quiet period and the handler call, which takes the event. */
  lemma FirstCall(d1: Option<Record>, t0: int, t1: int)
    ensures Run(Fsm.Init(false, t0), [Fsm.Trigger(d1, t1), Fsm.Fire(0), Fsm.Invoke])
         == Fsm.Machine(Fsm.Handling, [], Timer.TimerState(None, {}, 1), 0, 1, [[Scenarios.Ev(d1, t1)]])
  {
    var m0 := Fsm.Init(false, t0);
    assert m0 == Fsm.Machine(Fsm.Idle, [], Timer.TimerState(None, {}, 0), 0, 0, []);
    Run3(m0, Fsm.Trigger(d1, t1), Fsm.Fire(0), Fsm.Invoke);
    Scenarios.TriggerStep(m0, d1, t1);
    var m1 := Fsm.Machine(Fsm.Timing, [Scenarios.Ev(d1, t1)], Timer.TimerState(Some(0), {0}, 1), 0, 0, []);
    assert Step(m0, Fsm.Trigger(d1, t1)) == m1;
    Scenarios.FireLive(m1, 0, 1);
    var m2 := Fsm.Machine(Fsm.Handling, [Scenarios.Ev(d1, t1)], Timer.TimerState(None, {}, 1), 1, 0, []);
    assert Step(m1, Fsm.Fire(0)) == m2;
    HandOver(m2);
  }

  /** Two triggers while a handler call runs with nothing scheduled by the pretimer:
      both events are buffered and the second restart's fire is the one scheduled. */
  lemma TwoTriggersQueued(m: Fsm.Machine, d2: Option<Record>, d3: Option<Record>, t2: int, t3: int)
    requires m.state == Fsm.Handling && m.pretimer.id == None && m.pretimer.pending == {}
    ensures Step(Step(m, Fsm.Trigger(d2, t2)), Fsm.Trigger(d3, t3))
         == m.(state := Fsm.Queueing, debounced := m.debounced + [Scenarios.Ev(d2, t2), Scenarios.Ev(d3, t3)],
               pretimer := Timer.TimerState(Some(m.pretimer.nextId + 1), {m.pretimer.nextId + 1}, m.pretimer.nextId + 2))
  {
    var n := m.pretimer.nextId;
    TriggerStep(m, d2, t2);
    var m4 := m.(state := Fsm.Queueing, debounced := m.debounced + [Scenarios.Ev(d2, t2)],
                 pretimer := Timer.TimerState(Some(n), {n}, n + 1));
    TriggerStep(m4, d3, t3);
    assert m4.debounced + [Scenarios.Ev(d3, t3)] == m.debounced + [Scenarios.Ev(d2, t2), Scenarios.Ev(d3, t3)];
  }

  /** Two triggers while the handler runs, then its done callback: both events stay
      in the buffer and the pretimer is running. */
  lemma TriggersDuringCall(d1: Option<Record>, d2: Option<Record>, d3: Option<Record>, t1: int, t2: int, t3: int)
    ensures Run(Fsm.Machine(Fsm.Handling, [], Timer.TimerState(None, {}, 1), 0, 1, [[Scenarios.Ev(d1, t1)]]),
                [Fsm.Trigger(d2, t2), Fsm.Trigger(d3, t3), Fsm.Done])
         == Fsm.Machine(Fsm.Timing, [Scenarios.Ev(d2, t2), Scenarios.Ev(d3, t3)],
                        Timer.TimerState(Some(2), {2}, 3), 0, 0, [[Scenarios.Ev(d1, t1)]])
  {
    var m3 := Fsm.Machine(Fsm.Handling, [], Timer.TimerState(None, {}, 1), 0, 1, [[Scenarios.Ev(d1, t1)]]);
    Run3(m3, Fsm.Trigger(d2, t2), Fsm.Trigger(d3, t3), Fsm.Done);
    TwoTriggersQueued(m3, d2, d3, t2, t3);
    DoneQueueingRunning(Step(Step(m3, Fsm.Trigger(d2, t2)), Fsm.Trigger(d3, t3)));
  }

  /** The trace of Scenarios.EventsDuringHandlerDropped on the corrected machine: the
      second handler call gets the two events triggered during the first one. */
  lemma EventsDuringHandlerKept(d1: Option<Record>, d2: Option<Record>, d3: Option<Record>,
                                t0: int, t1: int, t2: int, t3: int)
    ensures var m := Run(Fsm.Init(false, t0), [Fsm.Trigger(d1, t1), Fsm.Fire(0), Fsm.Invoke,
                                               Fsm.Trigger(d2, t2), Fsm.Trigger(d3, t3), Fsm.Done,
                                               Fsm.Fire(2), Fsm.Invoke]);
      && m.state == Fsm.Handling && m.debounced == []
      && m.invoked == [[Pubsub.EventInfo("trigger", d1, t1)],
                       [Pubsub.EventInfo("trigger", d2, t2), Pubsub.EventInfo("trigger", d3, t3)]]
  {
    Run332(Fsm.Init(false, t0), Fsm.Trigger(d1, t1), Fsm.Fire(0), Fsm.Invoke,
           Fsm.Trigger(d2, t2), Fsm.Trigger(d3, t3), Fsm.Done, Fsm.Fire(2), Fsm.Invoke);
    FirstCall(d1, t0, t1);
    TriggersDuringCall(d1, d2, d3, t1, t2, t3);
    var m6 := Fsm.Machine(Fsm.Timing, [Scenarios.Ev(d2, t2), Scenarios.Ev(d3, t3)],
                          Timer.TimerState(Some(2), {2}, 3), 0, 0, [[Scenarios.Ev(d1, t1)]]);
    Run2(m6, Fsm.Fire(2), Fsm.Invoke);
    Scenarios.FireLive(m6, 2, 3);
    var m7 := m6.(state := Fsm.Handling, pretimer := Timer.TimerState(None, {}, 3), scheduled := 1);
    assert Step(m6, Fsm.Fire(2)) == m7;
    HandOver(m7);
  }
}
