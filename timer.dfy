/** lib/timer.js: a one-shot restartable timer whose only state is the id of its
    scheduled fire. `setTimeout` is modelled as handing out fresh ids from a counter
    and recording them as pending; `clearTimeout` removes an id from the pending set;
    the runtime can only fire a pending id. */
module Timer {
  import opened Events

  /** The timer's `id` (None for `null`) together with the part of the runtime's timer
      queue it uses: the ids scheduled and not yet fired or cleared, and the counter
      fresh ids are drawn from. */
  datatype TimerState = TimerState(id: Option<nat>, pending: set<nat>, nextId: nat)

  /** A timer as the constructor leaves it. */
  const Unstarted: TimerState := TimerState(None, {}, 0)

  /** `isRunning()` of lib/timer.js: an id is held. */
  predicate Running(t: TimerState) {
    t.id.Some?
  }

  /** Ids are drawn from the counter, and the id held is still scheduled. */
  predicate Wf(t: TimerState) {
    && (forall i | i in t.pending :: i < t.nextId)
    && (t.id.Some? ==> t.id.value in t.pending)
  }

  /** At most one fire is scheduled, and it is the one whose id is held. */
  predicate Single(t: TimerState) {
    t.pending == if t.id.Some? then {t.id.value} else {}
  }

  /** `start()`: schedule a fire under a fresh id and hold that id. */
  function Started(t: TimerState): (r: TimerState)
    ensures Running(r)
    ensures Wf(t) ==> Wf(r) && r.id.value !in t.pending
    ensures r.pending == t.pending + {r.id.value}
  {
    TimerState(Some(t.nextId), t.pending + {t.nextId}, t.nextId + 1)
  }

  /** `cancel()`: clear the held id's fire (clearing `null` does nothing) and drop the id. */
  function Cancelled(t: TimerState): (r: TimerState)
    ensures !Running(r)
    ensures Wf(t) ==> Wf(r)
    ensures Single(t) ==> r.pending == {}
    ensures r.pending == if t.id.Some? then t.pending - {t.id.value} else t.pending
  {
    TimerState(None, if t.id.Some? then t.pending - {t.id.value} else t.pending, t.nextId)
  }

  /** `restart()`: cancel, then start. */
  function Restarted(t: TimerState): (r: TimerState)
    ensures Running(r)
    ensures Wf(t) ==> Wf(r) && r.id.value !in t.pending
    ensures Wf(t) && t.id.Some? ==> t.id.value !in r.pending
    ensures Single(t) ==> Single(r)
  {
    Started(Cancelled(t))
  }

  /** The runtime running the callback scheduled under `fid`. An id that was cleared
      or has already fired does nothing; otherwise `finish()` runs, which cancels the
      timer. The flag says whether `finish()` ran. */
  function Fired(t: TimerState, fid: nat): (r: (TimerState, bool))
    ensures r.1 <==> fid in t.pending
    ensures !r.1 ==> r.0 == t
    ensures r.1 ==> !Running(r.0)
    ensures Wf(t) ==> Wf(r.0)
    ensures Single(t) ==> Single(r.0)
  {
    if fid !in t.pending then (t, false)
    else (Cancelled(t.(pending := t.pending - {fid})), true)
  }

  /** `cancel()` twice is `cancel()` once. */
  lemma CancelIdempotent(t: TimerState)
    ensures Cancelled(Cancelled(t)) == Cancelled(t)
  {
  }

  /** After `restart()` on a timer with at most one scheduled fire, only the newest id
      can reach `finish()`; in particular the id cleared by the restart never does. */
  lemma OnlyNewestFires(t: TimerState, fid: nat)
    requires Wf(t) && Single(t)
    ensures var r := Restarted(t); fid != r.id.value ==> Fired(r, fid) == (r, false)
    ensures var r := Restarted(t); Fired(r, r.id.value).1
  {
  }

  /** On a timer with at most one scheduled fire, `restart()` leaves exactly one, under
      the next fresh id. */
  lemma RestartedExactly(t: TimerState)
    requires Wf(t) && Single(t)
    ensures Restarted(t) == TimerState(Some(t.nextId), {t.nextId}, t.nextId + 1)
  {
  }

  /** The fire of the id a timer holds runs `finish()`, which leaves nothing scheduled. */
  lemma FiredCurrent(n: nat, next: nat)
    ensures Fired(TimerState(Some(n), {n}, next), n) == (TimerState(None, {}, next), true)
  {
  }

  /** However many restarts come in a row, only the last one's id is still scheduled. */
  lemma {:induction false} RestartsSupersede(t: TimerState, n: nat)
    requires Wf(t) && Single(t)
    ensures var r := RestartedTimes(t, n + 1); Wf(r) && r.pending == {r.id.value}
    decreases n
  {
    if n > 0 {
      RestartsSupersede(t, n - 1);
    }
  }

  /** `n` restarts in a row. */
  function RestartedTimes(t: TimerState, n: nat): TimerState
    decreases n
  {
    if n == 0 then t else Restarted(RestartedTimes(t, n - 1))
  }

  class Timer<A> {
    const delay: nat
    const action: Option<A>
    var id: Option<nat>
    var pending: set<nat>
    var nextId: nat

    function Model(): TimerState
      reads this
    {
      TimerState(id, pending, nextId)
    }

    ghost predicate Valid()
      reads this
    {
      Wf(Model())
    }

    /** `isRunning()`. */
    predicate IsRunning()
      reads this
    {
      Running(Model())
    }

    /** A new timer holds no id and is not running; `delay` and `action` are constants. */
    constructor(delay: nat, action: Option<A>)
      ensures this.delay == delay && this.action == action
      ensures Valid() && Model() == Unstarted && !IsRunning()
    {
      this.delay := delay;
      this.action := action;
      id := None;
      pending := {};
      nextId := 0;
    }

    method Start()
      requires Valid()
      modifies this
      ensures Valid() && IsRunning()
      ensures Model() == Started(old(Model()))
      ensures id.value !in old(pending)
    {
      id := Some(nextId);
      pending := pending + {nextId};
      nextId := nextId + 1;
    }

    /** `cancel()`: afterwards the timer is not running; cancelling again changes nothing. */
    method Cancel()
      requires Valid()
      modifies this
      ensures Valid() && !IsRunning()
      ensures Model() == Cancelled(old(Model()))
    {
      if id.Some? {
        pending := pending - {id.value};
      }
      id := None;
    }

    /** `finish()`: the timer stops running first, then the action is called, and only
        when one was supplied; the action called is returned for the owner to run. */
    method Finish() returns (called: Option<A>)
      requires Valid()
      modifies this
      ensures Valid() && !IsRunning()
      ensures Model() == Cancelled(old(Model()))
      ensures called == action
    {
      Cancel();
      if action.Some? {
        called := action;
      } else {
        called := None;
      }
    }

    /** `restart()`: the previously scheduled fire is cleared before a fresh one is scheduled. */
    method Restart()
      requires Valid()
      modifies this
      ensures Valid() && IsRunning()
      ensures Model() == Restarted(old(Model()))
    {
      Cancel();
      Start();
    }

    /** The runtime running the callback `setTimeout` scheduled under `fid`. */
    method Fire(fid: nat) returns (called: Option<A>)
      requires Valid()
      modifies this
      ensures Valid()
      ensures Model() == Fired(old(Model()), fid).0
      ensures called == if Fired(old(Model()), fid).1 then action else None
    {
      if fid !in pending {
        return None;
      }
      // the runtime drops `fid` from its queue as it runs the callback
      called := Finish();
      pending := pending - {fid};
    }
  }
}
