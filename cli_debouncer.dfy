/** debounce.js:88-197: the executable's debouncer object. Its reactions are subscribers
    on its own `Noticer`; each method below is proved to move the object exactly as the
    pure machine of module CliFsm moves. */
module CliDebouncer {
  import opened Events
  import Fsm
  import CliFsm
  import CliTimer
  import Timer
  import Noticer
  import Pubsub

  class Debouncer {
    var debounced: seq<Record>
    const noticer: Noticer.Noticer<Fsm.Reaction>
    const timer: CliTimer.Timer<string>   // its action is the name it posts
    var state: Fsm.State
    var scheduled: nat                    // deferred handler calls not yet run
    ghost var inFlight: nat               // handler calls whose done is still to come
    ghost var invoked: seq<seq<Record>>   // the buffers handed to the handler so far

    ghost function Abstract(): Fsm.Machine
      reads this, timer
    {
      Fsm.Machine(state, debounced, timer.Model(), scheduled, inFlight, invoked)
    }

    /** The noticer carries the four subscriptions made by the constructor, and the timer
        posts "timer done" when it finishes. */
    ghost predicate Wired()
      reads this, noticer, timer
    {
      && noticer.Valid() && noticer.subscribers == CliFsm.Table()
      && timer.Valid() && timer.action == "timer done"
    }

    /** What holds of the executable in every reachable state (CliFsm.CallInv). */
    ghost predicate Valid()
      reads this, noticer, timer
    {
      Wired() && CliFsm.CallInv(Abstract())
    }

    /** The four `subscribe` calls on a fresh noticer, one per reaction. */
    static method Wire() returns (n: Noticer.Noticer<Fsm.Reaction>)
      ensures fresh(n) && n.Valid() && n.subscribers == CliFsm.Table()
    {
      n := new Noticer.Noticer<Fsm.Reaction>();
      n.Subscribe("trigger", Fsm.OnTrigger);
      n.Subscribe("bootstrap", Fsm.OnBootstrap);
      n.Subscribe("timer done", Fsm.OnPretimerDone);
      n.Subscribe("handler done", Fsm.OnHandlerDone);
      CliFsm.TableBuilt();
    }

    /** `new Debouncer(latency, bootstrap, handler)`; `now` stamps the bootstrap event. */
    constructor(latency: nat, bootstrap: bool, now: int)
      ensures Valid() && fresh(noticer) && fresh(timer)
      ensures timer.delay == latency
      ensures Abstract() == Fsm.Init(bootstrap, now)
    {
      debounced := [];
      var n := Wire();
      noticer := n;
      timer := new CliTimer.Timer<string>(latency, "timer done");
      state := Fsm.Idle;
      scheduled := 0;
      inFlight := 0;
      invoked := [];
      new;
      ghost var m0 := Abstract();
      assert m0 == Fsm.Machine(Fsm.Idle, [], Timer.Unstarted, 0, 0, []);
      if bootstrap {
        Emit("bootstrap", None, now);
        CliFsm.PostRoutes(m0, None, now);
        assert Abstract() == Fsm.Bootstrapped(m0, Pubsub.EventInfo("bootstrap", None, now));
      }
      Fsm.InitInv(bootstrap, now);
    }

    /** `this.noticer.post(name, data)`: the subscribers of `name` run one after the other. */
    method Emit(name: string, data: Option<Record>, now: int)
      requires Wired()
      modifies this, timer
      ensures Wired()
      ensures Abstract() == CliFsm.Post(old(Abstract()), name, data, now)
    {
      var calls := noticer.Post(name, data, now);
      ghost var subs := Pubsub.SubscribersOf(noticer.subscribers, name);
      ghost var info := Pubsub.EventInfo(name, data, now);
      var i := 0;
      while i < |calls|
        invariant i <= |calls| == |subs|
        invariant Wired()
        invariant forall j | 0 <= j < |calls| :: calls[j] == Pubsub.Call(subs[j], info)
        invariant Abstract() == CliFsm.Deliver(old(Abstract()), subs[..i], info)
      {
        React(calls[i].subscriber, calls[i].info);
        assert subs[..i + 1][..i] == subs[..i];
        i := i + 1;
      }
      assert subs[..i] == subs;
    }

    /** One subscriber of the noticer running. */
    method React(r: Fsm.Reaction, info: Record)
      requires Wired()
      modifies this, timer
      ensures Wired()
      ensures Abstract() == CliFsm.Dispatch(old(Abstract()), r, info)
    {
      match r
      case OnTrigger => Triggered(info);
      case OnBootstrap => Bootstrapped(info);
      case OnPretimerDone => TimerFinished();
      case OnHandlerDone => HandlerFinished();
    }

    /** `handle()`: schedules the deferred handler call, which reads the buffer when it runs. */
    method Handle()
      modifies this
      ensures debounced == old(debounced) && state == old(state)
      ensures scheduled == old(scheduled) + 1
      ensures inFlight == old(inFlight) && invoked == old(invoked)
    {
      scheduled := scheduled + 1;
    }

    method Bootstrapped(e: Record)
      requires Wired()
      modifies this
      ensures Wired()
      ensures Abstract() == Fsm.Bootstrapped(old(Abstract()), e)
    {
      // actions
      debounced := debounced + [e];
      Handle();
      // state transitions
      state := Fsm.Handling;
    }

    method Triggered(e: Record)
      requires Wired()
      modifies this, timer
      ensures Wired()
      ensures Abstract() == Fsm.Triggered(old(Abstract()), e)
    {
      // actions
      timer.Restart();
      debounced := debounced + [e];
      // state transitions
      match state
      case Idle => state := Fsm.Timing;
      case Handling => state := Fsm.Queueing;
      case _ =>
    }

    method TimerFinished()
      requires Wired()
      modifies this
      ensures Wired()
      ensures Abstract() == Fsm.PretimerFinished(old(Abstract()))
    {
      // actions
      if state == Fsm.Timing {
        Handle();
      }
      // state transitions
      if state == Fsm.Timing {
        state := Fsm.Handling;
      }
    }

    /** `handlerFinished()`: the buffer is left as it is; the getter is consulted as written. */
    method HandlerFinished()
      requires Wired()
      modifies this
      ensures Wired()
      ensures Abstract() == CliFsm.HandlerFinished(old(Abstract()))
    {
      // actions
      if state == Fsm.Queueing && !timer.IsRunning() {
        Handle();
      }
      // state transitions
      match state
      case Handling => state := Fsm.Idle;
      case Queueing => state := if timer.IsRunning() then Fsm.Timing else Fsm.Handling;
      case _ =>
    }

    /** The callback deferred by `trigger(data)` runs: "trigger" is posted with `data`. */
    method Trigger(data: Option<Record>, now: int)
      requires Valid()
      modifies this, timer
      ensures Valid()
      ensures Abstract() == CliFsm.Step(old(Abstract()), Fsm.Input.Trigger(data, now))
    {
      ghost var m0 := Abstract();
      Emit("trigger", data, now);
      CliFsm.PostRoutes(m0, data, now);
      CliFsm.StepKeepsCallInv(m0, Fsm.Input.Trigger(data, now));
    }

    /** The runtime fires the timer's timeout scheduled under `fid`; when it is still
        scheduled, the timer finishes and its action posts "timer done". */
    method Fire(fid: nat, now: int)
      requires Valid()
      modifies this, timer
      ensures Valid()
      ensures Abstract() == CliFsm.Step(old(Abstract()), Fsm.Input.Fire(fid))
    {
      ghost var m0 := Abstract();
      var action := timer.Fire(fid);
      if action.Some? {
        ghost var m1 := Abstract();
        Emit(action.value, None, now);
        CliFsm.PostRoutes(m1, None, now);
      }
      CliFsm.StepKeepsCallInv(m0, Fsm.Input.Fire(fid));
    }

    /** The handler call deferred by `handle()` runs, when one is scheduled: the handler
        receives the buffer as it is at this moment. */
    method RunHandler() returns (batch: Option<seq<Record>>)
      requires Valid()
      modifies this
      ensures Valid()
      ensures Abstract() == CliFsm.Step(old(Abstract()), Fsm.Invoke)
      ensures batch == if old(scheduled) == 0 then None else Some(old(debounced))
    {
      ghost var m0 := Abstract();
      if scheduled == 0 {
        return None;
      }
      scheduled := scheduled - 1;
      inFlight := inFlight + 1;
      invoked := invoked + [debounced];
      batch := Some(debounced);
      CliFsm.StepKeepsCallInv(m0, Fsm.Invoke);
    }

    /** The running handler calls its done callback: "handler done" is posted, then the
        buffer is emptied, so it is empty when the callback returns. */
    method HandlerDone(now: int)
      requires Valid() && inFlight > 0
      modifies this, timer
      ensures Valid() && debounced == []
      ensures Abstract() == CliFsm.Step(old(Abstract()), Fsm.Done)
    {
      ghost var m0 := Abstract();
      inFlight := inFlight - 1;
      ghost var m1 := Abstract();
      CliFsm.DonePostsThenClears(m0, m1);
      Emit("handler done", None, now);
      CliFsm.PostRoutes(m1, None, now);
      assert Wired();
      ghost var m2 := Abstract();
      debounced := [];
      assert Abstract() == m2.(debounced := []);
    }
  }
}
