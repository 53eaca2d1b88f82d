/** debounce.js:44-76: the executable's own copy of the timer. Its state and its
    `start`, `cancel` and `restart` are those of lib/timer.js; two things differ:
    the `isRunning` getter reports true exactly when no id is held, and `finish`
    calls the action without checking that one was supplied. */
module CliTimer {
  import opened Events
  import opened LibTimer = Timer

  /** What the `isRunning` getter of debounce.js reports: that no id is held. */
  predicate ReportsRunning(t: TimerState) {
    t.id == None
  }

  /** The getter is the negation of lib/timer.js's `isRunning()` on every timer state. */
  lemma ReportsRunningInverted(t: TimerState)
    ensures ReportsRunning(t) <==> !Running(t)
  {
  }

  class Timer<A> {
    const delay: nat
    const action: A
    var id: Option<nat>
    var pending: set<nat>
    var nextId: nat

    function Model(): TimerState
      reads this
    {
      TimerState(id, pending, nextId)
    }

    ghost predicate Valid()
      reads this
    {
      Wf(Model())
    }

    /** The `isRunning` getter. */
    predicate IsRunning()
      reads this
    {
      ReportsRunning(Model())
    }

    /** A new timer holds no id, so the getter reports it as running. */
    constructor(delay: nat, action: A)
      ensures this.delay == delay && this.action == action
      ensures Valid() && Model() == Unstarted && IsRunning()
    {
      this.delay := delay;
      this.action := action;
      id := None;
      pending := {};
      nextId := 0;
    }

    /** `start()`: afterwards the getter reports the timer as not running. */
    method Start()
      requires Valid()
      modifies this
      ensures Valid() && !IsRunning()
      ensures Model() == Started(old(Model()))
      ensures id.value !in old(pending)
    {
      id := Some(nextId);
      pending := pending + {nextId};
      nextId := nextId + 1;
    }

    /** `cancel()`: afterwards the getter reports the timer as running. */
    method Cancel()
      requires Valid()
      modifies this
      ensures Valid() && IsRunning()
      ensures Model() == Cancelled(old(Model()))
    {
      if id.Some? {
        pending := pending - {id.value};
      }
      id := None;
    }

    /** `finish()`: cancel, then call the action unconditionally. */
    method Finish() returns (called: A)
      requires Valid()
      modifies this
      ensures Valid() && IsRunning()
      ensures Model() == Cancelled(old(Model()))
      ensures called == action
    {
      Cancel();
      called := action;
    }

    method Restart()
      requires Valid()
      modifies this
      ensures Valid() && !IsRunning()
      ensures Model() == Restarted(old(Model()))
    {
      Cancel();
      Start();
    }

    /** The runtime running the callback `setTimeout` scheduled under `fid`. */
    method Fire(fid: nat) returns (called: Option<A>)
      requires Valid()
      modifies this
      ensures Valid()
      ensures Model() == Fired(old(Model()), fid).0
      ensures called == if Fired(old(Model()), fid).1 then Some(action) else None
    {
      if fid !in pending {
        return None;
      }
      // the runtime drops `fid` from its queue as it runs the callback
      var a := Finish();
      pending := pending - {fid};
      called := Some(a);
    }
  }
}
