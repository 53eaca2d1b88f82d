/** lib/debouncer.js: the debouncer as an object. Its reactions are subscribers on its
    own bus; each method below is proved to move the object exactly as the pure machine
    of module Fsm moves, so the invariant proved there is kept by the object. */
module Debouncer {
  import opened Events
  import opened Fsm
  import Timer
  import Pubsub

  class Debouncer {
    var debounced: seq<Record>
    const bus: Pubsub.Pubsub<Reaction>
    const pretimer: Timer.Timer<string>   // its action is the name it publishes
    var state: State
    var scheduled: nat                    // deferred handler calls not yet run
    ghost var inFlight: nat               // handler calls whose done is still to come
    ghost var invoked: seq<seq<Record>>   // the buffers handed to the handler so far

    ghost function Abstract(): Machine
      reads this, pretimer
    {
      Machine(state, debounced, pretimer.Model(), scheduled, inFlight, invoked)
    }

    /** The bus carries the four subscriptions made by the constructor, and the pretimer
        publishes "pretimer done" when it finishes. */
    ghost predicate Wired()
      reads this, bus, pretimer
    {
      && bus.Valid() && bus.subscribers == Table()
      && pretimer.Valid() && pretimer.action == Some("pretimer done")
    }

    ghost predicate Valid()
      reads this, bus, pretimer
    {
      Wired() && Inv(Abstract())
    }

    /** The four `subscribe` calls on a fresh bus, one per reaction. */
    static method Wire() returns (b: Pubsub.Pubsub<Reaction>)
      ensures fresh(b) && b.Valid() && b.subscribers == Table()
    {
      b := new Pubsub.Pubsub<Reaction>();
      b.Subscribe("trigger", OnTrigger);
      b.Subscribe("bootstrap", OnBootstrap);
      b.Subscribe("pretimer done", OnPretimerDone);
      b.Subscribe("handler done", OnHandlerDone);
      TableBuilt();
    }

    /** `new Debouncer(latency, bootstrap, handler)`; `now` stamps the bootstrap event. */
    constructor(latency: nat, bootstrap: bool, now: int)
      ensures Valid() && fresh(bus) && fresh(pretimer)
      ensures pretimer.delay == latency
      ensures Abstract() == Init(bootstrap, now)
    {
      debounced := [];
      var b := Wire();
      bus := b;
      pretimer := new Timer.Timer<string>(latency, Some("pretimer done"));
      state := Idle;
      scheduled := 0;
      inFlight := 0;
      invoked := [];
      new;
      ghost var m0 := Abstract();
      assert m0 == Machine(Idle, [], Timer.Unstarted, 0, 0, []);
      if bootstrap {
        Emit("bootstrap", None, now);
        PublishRoutes(m0, None, now);
        assert Abstract() == Fsm.Bootstrapped(m0, Pubsub.EventInfo("bootstrap", None, now));
      }
      InitInv(bootstrap, now);
    }

    /** `this.pubsub.publish(name, data)`: the subscribers of `name` run one after the other. */
    method Emit(name: string, data: Option<Record>, now: int)
      requires Wired()
      modifies this, pretimer
      ensures Wired()
      ensures Abstract() == Publish(old(Abstract()), name, data, now)
    {
      var calls := bus.Publish(name, data, now);
      ghost var subs := Pubsub.SubscribersOf(bus.subscribers, name);
      ghost var info := Pubsub.EventInfo(name, data, now);
      var i := 0;
      while i < |calls|
        invariant i <= |calls| == |subs|
        invariant Wired()
        invariant forall j | 0 <= j < |calls| :: calls[j] == Pubsub.Call(subs[j], info)
        invariant Abstract() == Deliver(old(Abstract()), subs[..i], info)
      {
        React(calls[i].subscriber, calls[i].info);
        assert subs[..i + 1][..i] == subs[..i];
        i := i + 1;
      }
      assert subs[..i] == subs;
    }

    /** One subscriber of the bus running. */
    method React(r: Reaction, info: Record)
      requires Wired()
      modifies this, pretimer
      ensures Wired()
      ensures Abstract() == Dispatch(old(Abstract()), r, info)
    {
      match r
      case OnTrigger => Triggered(info);
      case OnBootstrap => Bootstrapped(info);
      case OnPretimerDone => PretimerFinished();
      case OnHandlerDone => HandlerFinished();
    }

    /** `handle()`: schedules the deferred handler call, which reads the buffer when it runs. */
    method Handle()
      modifies this
      ensures debounced == old(debounced) && state == old(state)
      ensures scheduled == old(scheduled) + 1
      ensures inFlight == old(inFlight) && invoked == old(invoked)
    {
      scheduled := scheduled + 1;
    }

    method Bootstrapped(e: Record)
      requires Wired()
      modifies this
      ensures Wired()
      ensures Abstract() == Fsm.Bootstrapped(old(Abstract()), e)
    {
      // actions
      debounced := debounced + [e];
      Handle();
      // state transitions
      state := Handling;
    }

    method Triggered(e: Record)
      requires Wired()
      modifies this, pretimer
      ensures Wired()
      ensures Abstract() == Fsm.Triggered(old(Abstract()), e)
    {
      // actions
      pretimer.Restart();
      debounced := debounced + [e];
      // state transitions
      match state
      case Idle => state := Timing;
      case Handling => state := Queueing;
      case _ =>
    }

    method PretimerFinished()
      requires Wired()
      modifies this
      ensures Wired()
      ensures Abstract() == Fsm.PretimerFinished(old(Abstract()))
    {
      // actions
      if state == Timing {
        Handle();
      }
      // state transitions
      if state == Timing {
        state := Handling;
      }
    }

    method HandlerFinished()
      requires Wired()
      modifies this
      ensures Wired()
      ensures Abstract() == Fsm.HandlerFinished(old(Abstract()))
    {
      // actions
      debounced := [];
      if state == Queueing && !pretimer.IsRunning() {
        Handle();
      }
      // state transitions
      match state
      case Handling => state := Idle;
      case Queueing => state := if pretimer.IsRunning() then Timing else Handling;
      case _ =>
    }

    /** The callback deferred by `trigger(data)` runs: "trigger" is published with `data`. */
    method Trigger(data: Option<Record>, now: int)
      requires Valid()
      modifies this, pretimer
      ensures Valid()
      ensures Abstract() == Step(old(Abstract()), Input.Trigger(data, now))
    {
      ghost var m0 := Abstract();
      Emit("trigger", data, now);
      PublishRoutes(m0, data, now);
      StepKeepsInv(m0, Input.Trigger(data, now));
    }

    /** The runtime fires the pretimer's timeout scheduled under `fid`; when it is still
        scheduled, the timer finishes and its action publishes "pretimer done". */
    method Fire(fid: nat, now: int)
      requires Valid()
      modifies this, pretimer
      ensures Valid()
      ensures Abstract() == Step(old(Abstract()), Input.Fire(fid))
    {
      ghost var m0 := Abstract();
      var action := pretimer.Fire(fid);
      if action.Some? {
        ghost var m1 := Abstract();
        Emit(action.value, None, now);
        PublishRoutes(m1, None, now);
      }
      StepKeepsInv(m0, Input.Fire(fid));
    }

    /** The handler call deferred by `handle()` runs, when one is scheduled: the handler
        receives the buffer as it is at this moment. */
    method RunHandler() returns (batch: Option<seq<Record>>)
      requires Valid()
      modifies this
      ensures Valid()
      ensures Abstract() == Step(old(Abstract()), Invoke)
      ensures batch == if old(scheduled) == 0 then None else Some(old(debounced))
    {
      ghost var m0 := Abstract();
      if scheduled == 0 {
        return None;
      }
      scheduled := scheduled - 1;
      inFlight := inFlight + 1;
      invoked := invoked + [debounced];
      batch := Some(debounced);
      StepKeepsInv(m0, Invoke);
    }

    /** The running handler calls its done callback, which publishes "handler done". A
        handler calls it once per call it received. */
    method HandlerDone(now: int)
      requires Valid() && inFlight > 0
      modifies this, pretimer
      ensures Valid()
      ensures Abstract() == Step(old(Abstract()), Done)
    {
      ghost var m0 := Abstract();
      inFlight := inFlight - 1;
      ghost var m1 := Abstract();
      assert Step(m0, Done) == Fsm.HandlerFinished(m1);
      StepKeepsInv(m0, Done);
      Emit("handler done", None, now);
      PublishRoutes(m1, None, now);
    }
  }
}
