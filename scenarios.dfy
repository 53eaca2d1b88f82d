/** Runs of the lib/debouncer.js machine from construction, proved stage by stage. */
module Scenarios {
  import opened Events
  import opened Fsm
  import Timer
  import Pubsub

  /** The record a trigger task publishes. */
  function Ev(d: Option<Record>, t: int): Record {
    Pubsub.EventInfo("trigger", d, t)
  }

  lemma Run2(m: Machine, a: Input, b: Input)
    ensures Run(m, [a, b]) == Step(Step(m, a), b)
  {
    assert [a, b][1..] == [b];
    assert Run(Step(m, a), [b]) == Step(Step(m, a), b);
  }

  lemma Run3(m: Machine, a: Input, b: Input, c: Input)
    ensures Run(m, [a, b, c]) == Step(Step(Step(m, a), b), c)
  {
    assert [a, b, c][1..] == [b, c];
    Run2(Step(m, a), b, c);
  }

  /** An eight-step trace run as three stages of three, three and two steps. */
  lemma Run332(m: Machine, a: Input, b: Input, c: Input, d: Input, e: Input, f: Input, g: Input, h: Input)
    ensures Run(m, [a, b, c, d, e, f, g, h]) == Run(Run(Run(m, [a, b, c]), [d, e, f]), [g, h])
  {
    assert [d, e, f] + [g, h] == [d, e, f, g, h];
    assert [a, b, c, d, e, f, g, h] == [a, b, c] + [d, e, f, g, h];
    RunAppend(m, [a, b, c], [d, e, f] + [g, h]);
    RunAppend(Run(m, [a, b, c]), [d, e, f], [g, h]);
  }

  /** A seven-step trace run as two stages of three and four steps. */
  lemma Run34(m: Machine, a: Input, b: Input, c: Input, d: Input, e: Input, f: Input, g: Input)
    ensures Run(m, [a, b, c, d, e, f, g]) == Run(Run(m, [a, b, c]), [d, e, f, g])
  {
    assert [a, b, c, d, e, f, g] == [a, b, c] + [d, e, f, g];
    RunAppend(m, [a, b, c], [d, e, f, g]);
  }

  /** The state a trigger moves to. */
  function AfterTrigger(s: State): State {
    match s
    case Idle => Timing
    case Handling => Queueing
    case _ => s
  }

  /** A trigger on a pretimer with at most one scheduled fire: the event is buffered and
      exactly one fire is scheduled, under the next fresh id. */
  lemma TriggerStep(m: Machine, d: Option<Record>, t: int)
    requires Timer.Wf(m.pretimer) && Timer.Single(m.pretimer)
    ensures Step(m, Trigger(d, t))
         == m.(state := AfterTrigger(m.state), debounced := m.debounced + [Ev(d, t)],
               pretimer := Timer.TimerState(Some(m.pretimer.nextId), {m.pretimer.nextId}, m.pretimer.nextId + 1))
  {
    Timer.RestartedExactly(m.pretimer);
  }

  /** The live fire in TIMING schedules the handler call. */
  lemma FireLive(m: Machine, n: nat, next: nat)
    requires m.state == Timing && m.pretimer == Timer.TimerState(Some(n), {n}, next)
    ensures Step(m, Fire(n))
         == m.(state := Handling, pretimer := Timer.TimerState(None, {}, next), scheduled := m.scheduled + 1)
  {
    Timer.FiredCurrent(n, next);
  }

  /** A fire that was cleared or already ran does nothing. */
  lemma FireStale(m: Machine, fid: nat)
    requires fid !in m.pretimer.pending
    ensures Step(m, Fire(fid)) == m
  {
  }

  /** The deferred handler call receives the buffer as it is. */
  lemma InvokeStep(m: Machine)
    requires m.scheduled > 0
    ensures Step(m, Invoke)
         == m.(scheduled := m.scheduled - 1, inFlight := m.inFlight + 1, invoked := m.invoked + [m.debounced])
  {
  }

  /** Done from HANDLING: back to IDLE with an empty buffer. */
  lemma DoneHandling(m: Machine)
    requires m.inFlight > 0 && m.state == Handling
    ensures Step(m, Done) == m.(state := Idle, debounced := [], inFlight := m.inFlight - 1)
  {
  }

  /** Done from QUEUEING while the pretimer runs: back to TIMING with an empty buffer. */
  lemma DoneQueueingRunning(m: Machine)
    requires m.inFlight > 0 && m.state == Queueing && Timer.Running(m.pretimer)
    ensures Step(m, Done) == m.(state := Timing, debounced := [], inFlight := m.inFlight - 1)
  {
  }

  /** A first trigger, its quiet period and the handler call: the handler runs with the
      one event and its done callback is outstanding. */
  lemma FirstCall(d1: Option<Record>, t0: int, t1: int)
    ensures Run(Init(false, t0), [Trigger(d1, t1), Fire(0), Invoke])
         == Machine(Handling, [Ev(d1, t1)], Timer.TimerState(None, {}, 1), 0, 1, [[Ev(d1, t1)]])
  {
    var m0 := Init(false, t0);
    assert m0 == Machine(Idle, [], Timer.TimerState(None, {}, 0), 0, 0, []);
    Run3(m0, Trigger(d1, t1), Fire(0), Invoke);
    TriggerStep(m0, d1, t1);
    var m1 := Machine(Timing, [Ev(d1, t1)], Timer.TimerState(Some(0), {0}, 1), 0, 0, []);
    assert Step(m0, Trigger(d1, t1)) == m1;
    FireLive(m1, 0, 1);
    var m2 := Machine(Handling, [Ev(d1, t1)], Timer.TimerState(None, {}, 1), 1, 0, []);
    assert Step(m1, Fire(0)) == m2;
    InvokeStep(m2);
  }

  /** Three triggers in a row, each restarting the pretimer. */
  lemma ThreeTriggers(d1: Option<Record>, d2: Option<Record>, d3: Option<Record>, t0: int, t1: int, t2: int, t3: int)
    ensures Run(Init(false, t0), [Trigger(d1, t1), Trigger(d2, t2), Trigger(d3, t3)])
         == Machine(Timing, [Ev(d1, t1), Ev(d2, t2), Ev(d3, t3)], Timer.TimerState(Some(2), {2}, 3), 0, 0, [])
  {
    var m0 := Init(false, t0);
    assert m0 == Machine(Idle, [], Timer.TimerState(None, {}, 0), 0, 0, []);
    Run3(m0, Trigger(d1, t1), Trigger(d2, t2), Trigger(d3, t3));
    TriggerStep(m0, d1, t1);
    var m1 := Machine(Timing, [Ev(d1, t1)], Timer.TimerState(Some(0), {0}, 1), 0, 0, []);
    assert Step(m0, Trigger(d1, t1)) == m1;
    TriggerStep(m1, d2, t2);
    var m2 := Machine(Timing, [Ev(d1, t1), Ev(d2, t2)], Timer.TimerState(Some(1), {1}, 2), 0, 0, []);
    assert Step(m1, Trigger(d2, t2)) == m2;
    TriggerStep(m2, d3, t3);
    assert Step(m2, Trigger(d3, t3))
        == Machine(Timing, [Ev(d1, t1), Ev(d2, t2), Ev(d3, t3)], Timer.TimerState(Some(2), {2}, 3), 0, 0, []);
  }

  /** The quiet period after the burst: the two superseded fires do nothing, the live
      one schedules the handler call, which gets the whole buffer. */
  lemma QuietAfterBurst(m: Machine)
    requires m.state == Timing && m.pretimer == Timer.TimerState(Some(2), {2}, 3)
    requires m.scheduled == 0 && m.inFlight == 0 && m.invoked == []
    ensures Run(m, [Fire(0), Fire(1), Fire(2), Invoke])
         == m.(state := Handling, pretimer := Timer.TimerState(None, {}, 3), inFlight := 1, invoked := [m.debounced])
  {
    FireStale(m, 0);
    assert [Fire(0), Fire(1), Fire(2), Invoke][1..] == [Fire(1), Fire(2), Invoke];
    Run3(m, Fire(1), Fire(2), Invoke);
    FireStale(m, 1);
    FireLive(m, 2, 3);
    InvokeStep(m.(state := Handling, pretimer := Timer.TimerState(None, {}, 3), scheduled := 1));
  }

  /** Three triggers in a row and then a quiet period: the two fires their restarts
      superseded do nothing, and the handler is called once with all three events in
      arrival order. */
  lemma BurstOfThreeHandledOnce(d1: Option<Record>, d2: Option<Record>, d3: Option<Record>,
                                 t0: int, t1: int, t2: int, t3: int)
    ensures var m := Run(Init(false, t0), [Trigger(d1, t1), Trigger(d2, t2), Trigger(d3, t3),
                                           Fire(0), Fire(1), Fire(2), Invoke]);
      && m.state == Handling
      && m.invoked == [[Ev(d1, t1), Ev(d2, t2), Ev(d3, t3)]]
  {
    Run34(Init(false, t0), Trigger(d1, t1), Trigger(d2, t2), Trigger(d3, t3), Fire(0), Fire(1), Fire(2), Invoke);
    ThreeTriggers(d1, d2, d3, t0, t1, t2, t3);
    QuietAfterBurst(Run(Init(false, t0), [Trigger(d1, t1), Trigger(d2, t2), Trigger(d3, t3)]));
  }

  /** The done callback of a lone handler call, then a second trigger and its quiet
      period. */
  lemma SecondCall(d1: Option<Record>, d2: Option<Record>, t1: int, t2: int)
    ensures Run(Machine(Handling, [Ev(d1, t1)], Timer.TimerState(None, {}, 1), 0, 1, [[Ev(d1, t1)]]),
                [Done, Trigger(d2, t2), Fire(1)])
         == Machine(Handling, [Ev(d2, t2)], Timer.TimerState(None, {}, 2), 1, 0, [[Ev(d1, t1)]])
  {
    var m3 := Machine(Handling, [Ev(d1, t1)], Timer.TimerState(None, {}, 1), 0, 1, [[Ev(d1, t1)]]);
    Run3(m3, Done, Trigger(d2, t2), Fire(1));
    DoneHandling(m3);
    var m4 := Machine(Idle, [], Timer.TimerState(None, {}, 1), 0, 0, [[Ev(d1, t1)]]);
    assert Step(m3, Done) == m4;
    TriggerStep(m4, d2, t2);
    var m5 := Machine(Timing, [Ev(d2, t2)], Timer.TimerState(Some(1), {1}, 2), 0, 0, [[Ev(d1, t1)]]);
    assert Step(m4, Trigger(d2, t2)) == m5;
    FireLive(m5, 1, 2);
  }

  /** Two triggers separated by a quiet period and a completed handler call: two handler
      calls, each with one event. */
  lemma TwoSeparatedTriggersHandledSingly(d1: Option<Record>, d2: Option<Record>, t0: int, t1: int, t2: int)
    ensures var m := Run(Init(false, t0), [Trigger(d1, t1), Fire(0), Invoke, Done,
                                           Trigger(d2, t2), Fire(1), Invoke, Done]);
      && m.state == Idle && m.debounced == []
      && m.invoked == [[Ev(d1, t1)], [Ev(d2, t2)]]
  {
    Run332(Init(false, t0), Trigger(d1, t1), Fire(0), Invoke, Done, Trigger(d2, t2), Fire(1), Invoke, Done);
    FirstCall(d1, t0, t1);
    SecondCall(d1, d2, t1, t2);
    var m6 := Machine(Handling, [Ev(d2, t2)], Timer.TimerState(None, {}, 2), 1, 0, [[Ev(d1, t1)]]);
    Run2(m6, Invoke, Done);
    InvokeStep(m6);
    var m7 := Machine(Handling, [Ev(d2, t2)], Timer.TimerState(None, {}, 2), 0, 1, [[Ev(d1, t1)], [Ev(d2, t2)]]);
    assert Step(m6, Invoke) == m7;
    DoneHandling(m7);
  }

  /** With bootstrap and no trigger at all: one handler call with the one synthetic
      bootstrap event, after which the machine is IDLE again. */
  lemma BootstrapAlone(now: int)
    ensures var m := Run(Init(true, now), [Invoke, Done]);
      && m.state == Idle && m.debounced == [] && m.scheduled == 0 && m.inFlight == 0
      && m.invoked == [[Pubsub.EventInfo("bootstrap", None, now)]]
  {
    Run2(Init(true, now), Invoke, Done);
  }

  /** Two triggers while the first handler call runs: they restart the pretimer, then
      the done callback replaces the buffer, so both events are gone. */
  lemma TriggersDuringCall(d1: Option<Record>, d2: Option<Record>, d3: Option<Record>, t1: int, t2: int, t3: int)
    ensures Run(Machine(Handling, [Ev(d1, t1)], Timer.TimerState(None, {}, 1), 0, 1, [[Ev(d1, t1)]]),
                [Trigger(d2, t2), Trigger(d3, t3), Done])
         == Machine(Timing, [], Timer.TimerState(Some(2), {2}, 3), 0, 0, [[Ev(d1, t1)]])
  {
    var m3 := Machine(Handling, [Ev(d1, t1)], Timer.TimerState(None, {}, 1), 0, 1, [[Ev(d1, t1)]]);
    Run3(m3, Trigger(d2, t2), Trigger(d3, t3), Done);
    TriggerStep(m3, d2, t2);
    var m4 := Machine(Queueing, [Ev(d1, t1), Ev(d2, t2)], Timer.TimerState(Some(1), {1}, 2), 0, 1, [[Ev(d1, t1)]]);
    assert Step(m3, Trigger(d2, t2)) == m4;
    TriggerStep(m4, d3, t3);
    var m5 := Machine(Queueing, [Ev(d1, t1), Ev(d2, t2), Ev(d3, t3)], Timer.TimerState(Some(2), {2}, 3), 0, 1, [[Ev(d1, t1)]]);
    assert Step(m4, Trigger(d3, t3)) == m5;
    DoneQueueingRunning(m5);
  }

  /** Events triggered while the handler runs are dropped: the buffer is replaced when
      the handler is done, so the next handler call gets none of them (here it gets an
      empty buffer), and neither event is in any buffer the handler ever receives. */
  lemma EventsDuringHandlerDropped(d1: Option<Record>, d2: Option<Record>, d3: Option<Record>,
                                   t0: int, t1: int, t2: int, t3: int)
    ensures var m := Run(Init(false, t0), [Trigger(d1, t1), Fire(0), Invoke, Trigger(d2, t2),
                                           Trigger(d3, t3), Done, Fire(2), Invoke]);
      && m.state == Handling && m.debounced == []
      && m.invoked == [[Ev(d1, t1)], []]
  {
    Run332(Init(false, t0), Trigger(d1, t1), Fire(0), Invoke, Trigger(d2, t2), Trigger(d3, t3), Done, Fire(2), Invoke);
    FirstCall(d1, t0, t1);
    TriggersDuringCall(d1, d2, d3, t1, t2, t3);
    var m6 := Machine(Timing, [], Timer.TimerState(Some(2), {2}, 3), 0, 0, [[Ev(d1, t1)]]);
    Run2(m6, Fire(2), Invoke);
    FireLive(m6, 2, 3);
    var m7 := Machine(Handling, [], Timer.TimerState(None, {}, 3), 1, 0, [[Ev(d1, t1)]]);
    assert Step(m6, Fire(2)) == m7;
    InvokeStep(m7);
  }

  // Bursts and separated triggers of any length.

  /** The data and time of one trigger. */
  type Arrival = (Option<Record>, int)

  /** The trigger tasks of a sequence of arrivals, in order. */
  function Triggers(ps: seq<Arrival>): seq<Input>
    decreases |ps|
  {
    if ps == [] then [] else [Trigger(ps[0].0, ps[0].1)] + Triggers(ps[1..])
  }

  /** The records those trigger tasks publish, in order. */
  function Published(ps: seq<Arrival>): seq<Record>
    decreases |ps|
  {
    if ps == [] then [] else [Ev(ps[0].0, ps[0].1)] + Published(ps[1..])
  }

  /** The id of the fire a burst `ps` leaves scheduled when the first fresh id is `n`. */
  function LastId(n: nat, ps: seq<Arrival>): nat
    requires |ps| > 0
  {
    n + |ps| - 1
  }

  /** TIMING after a burst: the events `evs` buffered, only the fire under `last` still
      scheduled, no handler call scheduled or running, and the handler's history `inv`. */
  function Armed(evs: seq<Record>, last: nat, inv: seq<seq<Record>>): Machine {
    Machine(Timing, evs, Timer.TimerState(Some(last), {last}, last + 1), 0, 0, inv)
  }

  /** HANDLING right after the handler was called with `evs`. */
  function Called(evs: seq<Record>, last: nat, inv: seq<seq<Record>>): Machine {
    Machine(Handling, evs, Timer.TimerState(None, {}, last + 1), 0, 1, inv + [evs])
  }

  /** A burst of any length from IDLE or TIMING: the machine is TIMING, every event is
      buffered in arrival order, and only the last trigger's fire is still scheduled. */
  lemma {:induction false} BurstBuffered(st: State, evs: seq<Record>, p: Timer.TimerState,
                                         inv: seq<seq<Record>>, ps: seq<Arrival>)
    requires Timer.Wf(p) && Timer.Single(p) && (st == Idle || st == Timing) && |ps| > 0
    ensures Run(Machine(st, evs, p, 0, 0, inv), Triggers(ps)) == Armed(evs + Published(ps), p.nextId + |ps| - 1, inv)
    decreases |ps|
  {
    var d, t := ps[0].0, ps[0].1;
    var m := Machine(st, evs, p, 0, 0, inv);
    var p1 := Timer.TimerState(Some(p.nextId), {p.nextId}, p.nextId + 1);
    TriggerStep(m, d, t);
    var m1 := Machine(Timing, evs + [Ev(d, t)], p1, 0, 0, inv);
    assert Step(m, Trigger(d, t)) == m1;
    assert Triggers(ps)[0] == Trigger(d, t) && Triggers(ps)[1..] == Triggers(ps[1..]);
    assert Published(ps) == [Ev(d, t)] + Published(ps[1..]);
    if |ps| == 1 {
      assert Triggers(ps[1..]) == [] && Published(ps[1..]) == [];
    } else {
      BurstBuffered(Timing, evs + [Ev(d, t)], p1, inv, ps[1..]);
      assert evs + [Ev(d, t)] + Published(ps[1..]) == evs + Published(ps);
    }
  }

  /** A machine at rest in IDLE: empty buffer, no call scheduled or running, no fire
      scheduled, the next fresh id `n`, and the handler's history `inv`. */
  function Rest(n: nat, inv: seq<seq<Record>>): Machine {
    Machine(Idle, [], Timer.TimerState(None, {}, n), 0, 0, inv)
  }

  /** A reachable IDLE machine is at rest: an empty buffer, no handler call scheduled or
      running, and no fire scheduled. */
  lemma IdleAtRest(m: Machine)
    requires Inv(m) && m.state == Idle
    ensures m == Rest(m.pretimer.nextId, m.invoked)
  {
  }

  /** The rest machine written out, and the buffer of a burst from rest. */
  lemma ArmedFromRest(n: nat, inv: seq<seq<Record>>, ps: seq<Arrival>)
    requires |ps| > 0
    ensures Machine(Idle, [], Timer.TimerState(None, {}, n), 0, 0, inv) == Rest(n, inv)
    ensures Armed([] + Published(ps), Timer.TimerState(None, {}, n).nextId + |ps| - 1, inv)
         == Armed(Published(ps), LastId(n, ps), inv)
  {
    var evs, last := Published(ps), LastId(n, ps);
    var x := Timer.TimerState(None, {}, n).nextId + |ps| - 1;
    assert [] + evs == evs;
    assert Armed([] + evs, x, inv) == Armed(evs, x, inv);
    assert x == last;
  }

  /** A burst of any length from rest buffers all of its events in arrival order. */
  lemma BurstFromRest(n: nat, inv: seq<seq<Record>>, ps: seq<Arrival>)
    requires |ps| > 0
    ensures Run(Rest(n, inv), Triggers(ps)) == Armed(Published(ps), LastId(n, ps), inv)
  {
    BurstBuffered(Idle, [], Timer.TimerState(None, {}, n), inv, ps);
    ArmedFromRest(n, inv, ps);
  }

  /** The quiet period after a burst: a fire other than the live one does nothing; the
      live one schedules the handler call, which receives the whole buffer. */
  lemma QuietPeriod(evs: seq<Record>, last: nat, inv: seq<seq<Record>>)
    ensures forall fid: nat | fid != last :: Step(Armed(evs, last, inv), Fire(fid)) == Armed(evs, last, inv)
    ensures Run(Armed(evs, last, inv), [Fire(last), Invoke]) == Called(evs, last, inv)
  {
    var b := Armed(evs, last, inv);
    forall fid: nat | fid != last
      ensures Step(b, Fire(fid)) == b
    {
      FireStale(b, fid);
    }
    Run2(b, Fire(last), Invoke);
    FireLive(b, last, last + 1);
    var b1 := Machine(Handling, evs, Timer.TimerState(None, {}, last + 1), 1, 0, inv);
    assert Step(b, Fire(last)) == b1;
    InvokeStep(b1);
  }

  /** A burst of any length from rest (which every reachable IDLE machine is), then its
      quiet period: the burst leaves TIMING with every event buffered in arrival order;
      every fire superseded by a later trigger does nothing; and the live one leads to
      exactly one handler call, holding all of the burst's events, after which nothing is
      scheduled. */
  lemma BurstHandledOnce(n: nat, inv: seq<seq<Record>>, ps: seq<Arrival>)
    requires |ps| > 0
    ensures Run(Rest(n, inv), Triggers(ps)) == Armed(Published(ps), LastId(n, ps), inv)
    ensures forall fid: nat | fid != LastId(n, ps) ::
              Step(Armed(Published(ps), LastId(n, ps), inv), Fire(fid)) == Armed(Published(ps), LastId(n, ps), inv)
    ensures Run(Armed(Published(ps), LastId(n, ps), inv), [Fire(LastId(n, ps)), Invoke])
         == Called(Published(ps), LastId(n, ps), inv)
  {
    BurstFromRest(n, inv, ps);
    QuietPeriod(Published(ps), LastId(n, ps), inv);
  }

  /** From construction, a burst of any length and its quiet period give one handler
      call, with exactly the burst's events. */
  lemma BurstAfterConstruction(t0: int, ps: seq<Arrival>)
    requires |ps| > 0
    ensures Run(Init(false, t0), Triggers(ps) + [Fire(LastId(0, ps)), Invoke]) == Called(Published(ps), LastId(0, ps), [])
  {
    assert Init(false, t0) == Rest(0, []);
    BurstHandledOnce(0, [], ps);
    RunAppend(Init(false, t0), Triggers(ps), [Fire(LastId(0, ps)), Invoke]);
  }

  lemma Run4(m: Machine, a: Input, b: Input, c: Input, d: Input)
    ensures Run(m, [a, b, c, d]) == Step(Step(Step(Step(m, a), b), c), d)
  {
    assert [a, b, c, d][1..] == [b, c, d];
    Run3(Step(m, a), b, c, d);
  }

  /** One trigger from IDLE, its quiet period, the handler call and its done callback:
      back at rest in IDLE, and the handler got exactly that event. */
  lemma OneCycle(n: nat, inv: seq<seq<Record>>, d: Option<Record>, t: int)
    ensures Run(Rest(n, inv), [Trigger(d, t), Fire(n), Invoke, Done]) == Rest(n + 1, inv + [[Ev(d, t)]])
  {
    var m := Rest(n, inv);
    Run4(m, Trigger(d, t), Fire(n), Invoke, Done);
    TriggerStep(m, d, t);
    var m1 := Machine(Timing, [Ev(d, t)], Timer.TimerState(Some(n), {n}, n + 1), 0, 0, inv);
    assert Step(m, Trigger(d, t)) == m1;
    FireLive(m1, n, n + 1);
    var m2 := Machine(Handling, [Ev(d, t)], Timer.TimerState(None, {}, n + 1), 1, 0, inv);
    assert Step(m1, Fire(n)) == m2;
    InvokeStep(m2);
    var m3 := Machine(Handling, [Ev(d, t)], Timer.TimerState(None, {}, n + 1), 0, 1, inv + [[Ev(d, t)]]);
    assert Step(m2, Invoke) == m3;
    DoneHandling(m3);
  }

  /** Triggers each followed by a quiet period and a completed handler call; the
      pretimer ids they use start at `next`. */
  function Cycles(ps: seq<Arrival>, next: nat): seq<Input>
    decreases |ps|
  {
    if ps == [] then []
    else [Trigger(ps[0].0, ps[0].1), Fire(next), Invoke, Done] + Cycles(ps[1..], next + 1)
  }

  /** One handler buffer per arrival, holding just that arrival's event. */
  function Singles(ps: seq<Arrival>): seq<seq<Record>>
    decreases |ps|
  {
    if ps == [] then [] else [[Ev(ps[0].0, ps[0].1)]] + Singles(ps[1..])
  }

  /** Any number of well-separated triggers from rest: each gets its own handler call
      with just its event, in order, and the machine ends at rest with an empty buffer. */
  lemma {:induction false} CyclesFromRest(n: nat, inv: seq<seq<Record>>, ps: seq<Arrival>)
    ensures Run(Rest(n, inv), Cycles(ps, n)) == Rest(n + |ps|, inv + Singles(ps))
    decreases |ps|
  {
    if ps == [] {
      assert inv + Singles(ps) == inv;
    } else {
      var d, t := ps[0].0, ps[0].1;
      CyclesUnfold(n, inv, ps);
      RunAppend(Rest(n, inv), [Trigger(d, t), Fire(n), Invoke, Done], Cycles(ps[1..], n + 1));
      OneCycle(n, inv, d, t);
      CyclesFromRest(n + 1, inv + [[Ev(d, t)]], ps[1..]);
    }
  }

  /** The first cycle of a non-empty `Cycles`, and what the rest of them add. */
  lemma CyclesUnfold(n: nat, inv: seq<seq<Record>>, ps: seq<Arrival>)
    requires |ps| > 0
    ensures Cycles(ps, n) == [Trigger(ps[0].0, ps[0].1), Fire(n), Invoke, Done] + Cycles(ps[1..], n + 1)
    ensures Rest(n + 1 + |ps[1..]|, inv + [[Ev(ps[0].0, ps[0].1)]] + Singles(ps[1..]))
         == Rest(n + |ps|, inv + Singles(ps))
  {
    assert Singles(ps) == [[Ev(ps[0].0, ps[0].1)]] + Singles(ps[1..]);
    assert inv + [[Ev(ps[0].0, ps[0].1)]] + Singles(ps[1..]) == inv + Singles(ps);
  }

  /** Any number of well-separated triggers from a reachable IDLE machine: each gets its
      own handler call with just its event, in order, and the machine ends at rest. */
  lemma SeparatedTriggersHandledSingly(m: Machine, ps: seq<Arrival>)
    requires Inv(m) && m.state == Idle
    ensures Run(m, Cycles(ps, m.pretimer.nextId)) == Rest(m.pretimer.nextId + |ps|, m.invoked + Singles(ps))
  {
    IdleAtRest(m);
    CyclesFromRest(m.pretimer.nextId, m.invoked, ps);
  }

  /** From construction, any number of well-separated triggers: one handler call per
      trigger, each with just its event, in order. */
  lemma SeparatedAfterConstruction(t0: int, ps: seq<Arrival>)
    ensures var m := Run(Init(false, t0), Cycles(ps, 0));
      m.state == Idle && m.debounced == [] && m.invoked == Singles(ps)
  {
    InitInv(false, t0);
    SeparatedTriggersHandledSingly(Init(false, t0), ps);
  }
}
