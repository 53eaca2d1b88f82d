/** debounce.js:8-42: `Noticer`, the executable's own copy of the bus. Its contracts
    are stated with the same definitions as those of `Pubsub.Pubsub`, so `post` and
    `subscribe` behave as `publish` and `subscribe` do. */
module Noticer {
  import opened Events
  import opened Pubsub

  class Noticer<S(==)> {
    var subscribers: Table<S>

    ghost predicate Valid()
      reads this
    {
      TableOk(subscribers)
    }

    constructor()
      ensures Valid() && subscribers == map[]
    {
      subscribers := map[];
    }

    /** `post(e, data)`: the calls `publish` would make, in the same order, with the same record. */
    method Post(e: string, data: Option<Record>, now: int) returns (calls: seq<Call<S>>)
      ensures e !in subscribers ==> calls == []
      ensures e in subscribers ==> |calls| == |subscribers[e]|
      ensures e in subscribers ==>
        forall i | 0 <= i < |calls| :: calls[i] == Call(subscribers[e][i], EventInfo(e, data, now))
    {
      if e !in subscribers {
        return [];
      }
      var info := EventInfo(e, data, now);
      var list := subscribers[e];
      calls := [];
      for i := 0 to |list|
        invariant |calls| == i
        invariant forall j | 0 <= j < i :: calls[j] == Call(list[j], info)
      {
        calls := calls + [Call(list[i], info)];
      }
    }

    /** `subscribe(e, s)`, with the same effect as `Pubsub.Pubsub.Subscribe`. */
    method Subscribe(e: string, s: S)
      requires Valid()
      modifies this
      ensures Valid()
      ensures subscribers == Subscribed(old(subscribers), e, s)
    {
      SubscribeKeepsTableOk(subscribers, e, s);
      if e !in subscribers {
        subscribers := subscribers[e := []];
      }
      if s in subscribers[e] {
        return;
      }
      subscribers := subscribers[e := subscribers[e] + [s]];
    }
  }
}
