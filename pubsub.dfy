/** lib/pubsub.js: a registry from event name to an ordered, duplicate-free list of
    subscribers, and a synchronous publish that calls them in subscription order. */
module Pubsub {
  import opened Events

  /** The `subscribers` dictionary: event name to subscribers in subscription order. */
  type Table<S> = map<string, seq<S>>

  predicate NoDuplicates<S(==)>(s: seq<S>) {
    forall i, j | 0 <= i < j < |s| :: s[i] != s[j]
  }

  /** What `subscribe` keeps true of the dictionary: every registered name has a
      non-empty list, and no list holds a subscriber twice. */
  predicate TableOk<S(==)>(t: Table<S>) {
    forall e | e in t :: |t[e]| > 0 && NoDuplicates(t[e])
  }

  /** The subscribers of `e`, none when `e` was never registered. */
  function SubscribersOf<S>(t: Table<S>, e: string): seq<S> {
    if e in t then t[e] else []
  }

  /** The dictionary after `subscribe(e, s)`: the list of `e` is created when
      missing and `s` is pushed at its end unless it is already in it. */
  function Subscribed<S(==)>(t: Table<S>, e: string, s: S): (r: Table<S>)
    ensures r.Keys == t.Keys + {e}
    ensures forall e' | e' in t && e' != e :: r[e'] == t[e']
    ensures s in SubscribersOf(t, e) ==> r == t
    ensures s !in SubscribersOf(t, e) ==> r[e] == SubscribersOf(t, e) + [s]
  {
    var list := SubscribersOf(t, e);
    t[e := if s in list then list else list + [s]]
  }

  /** The record every subscriber of `e` receives: the fields of `data` (an empty
      record when `data` is missing) with `name` and `time` overwritten. */
  function EventInfo(e: string, data: Option<Record>, now: int): (r: Record)
    ensures "name" in r && r["name"] == Str(e)
    ensures "time" in r && r["time"] == Date(now)
    ensures data.None? ==> r.Keys == {"name", "time"}
    ensures data.Some? ==> r.Keys == data.value.Keys + {"name", "time"}
    ensures data.Some? ==> forall k | k in data.value && k != "name" && k != "time" :: r[k] == data.value[k]
  {
    var base: Record := if data.Some? then data.value else map[];
    base + map["name" := Str(e), "time" := Date(now)]
  }

  /** One subscriber call made while publishing: who is called, with which record. */
  datatype Call<S> = Call(subscriber: S, info: Record)

  lemma {:induction false} SubscribeKeepsTableOk<S>(t: Table<S>, e: string, s: S)
    requires TableOk(t)
    ensures TableOk(Subscribed(t, e, s))
  {
    var list := SubscribersOf(t, e);
    if s !in list {
      var l' := list + [s];
      assert NoDuplicates(list) by {
        if e in t { assert list == t[e]; } else { assert list == []; }
      }
      forall i, j | 0 <= i < j < |l'| ensures l'[i] != l'[j] {
        if j == |list| { assert l'[j] == s && l'[i] == list[i]; }
        else { assert l'[i] == list[i] && l'[j] == list[j]; }
      }
    }
  }

  /** Subscribing twice is subscribing once. */
  lemma SubscribeIdempotent<S>(t: Table<S>, e: string, s: S)
    ensures Subscribed(Subscribed(t, e, s), e, s) == Subscribed(t, e, s)
  {
  }

  class Pubsub<S(==)> {
    var subscribers: Table<S>

    ghost predicate Valid()
      reads this
    {
      TableOk(subscribers)
    }

    constructor()
      ensures Valid() && subscribers == map[]
    {
      subscribers := map[];
    }

    /** `publish(e, data)`: nothing when `e` is not registered; otherwise every
        subscriber of `e` is called exactly once, in subscription order, each with
        the same record. The calls are returned in the order they are made; running
        them is the caller's part. Publishing never changes the dictionary. */
    method Publish(e: string, data: Option<Record>, now: int) returns (calls: seq<Call<S>>)
      ensures e !in subscribers ==> calls == []
      ensures e in subscribers ==> |calls| == |subscribers[e]|
      ensures e in subscribers ==>
        forall i | 0 <= i < |calls| :: calls[i] == Call(subscribers[e][i], EventInfo(e, data, now))
    {
      if e !in subscribers {
        return [];
      }
      var info := EventInfo(e, data, now);
      var list := subscribers[e];
      calls := [];
      for i := 0 to |list|
        invariant |calls| == i
        invariant forall j | 0 <= j < i :: calls[j] == Call(list[j], info)
      {
        calls := calls + [Call(list[i], info)];
      }
    }

    /** `subscribe(e, s)`. */
    method Subscribe(e: string, s: S)
      requires Valid()
      modifies this
      ensures Valid()
      ensures subscribers == Subscribed(old(subscribers), e, s)
    {
      SubscribeKeepsTableOk(subscribers, e, s);
      if e !in subscribers {
        subscribers := subscribers[e := []];
      }
      if s in subscribers[e] {
        return;
      }
      subscribers := subscribers[e := subscribers[e] + [s]];
    }
  }
}
