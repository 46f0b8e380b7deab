/**
 * C# multicast events as subscriber registries: an event is the ordered list of
 * the handlers subscribed to it (null when the list is empty), raising it calls
 * every handler in subscription order, and `-=` removes one subscription.
 * Handlers are external code, so a call is recorded as a Delivery.
 */
module Events {

  /** The identity of a subscribed delegate. */
  type HandlerId = nat

  /** One handler invocation with the arguments it received. */
  datatype Delivery<A> = Delivery(handler: HandlerId, args: A)

  /**
   * `Event?.Invoke(args)`: one call per subscription, in subscription order,
   * each with the same arguments; nothing at all when there is no subscriber.
   */
  function Notify<A>(subscribers: seq<HandlerId>, args: A): (calls: seq<Delivery<A>>)
    ensures |calls| == |subscribers|
    ensures forall i :: 0 <= i < |calls| ==> calls[i] == Delivery(subscribers[i], args)
  {
    if subscribers == [] then [] else [Delivery(subscribers[0], args)] + Notify(subscribers[1..], args)
  }

  /**
   * `Event -= h` (Delegate.Remove): drops one subscription of `h`, the last one;
   * a handler that is not subscribed changes nothing.
   */
  function Remove(subscribers: seq<HandlerId>, h: HandlerId): (r: seq<HandlerId>)
    ensures h in subscribers ==> multiset(r) == multiset(subscribers) - multiset{h}
    ensures h !in subscribers ==> r == subscribers
  {
    if subscribers == [] then []
    else
      var n := |subscribers| - 1;
      assert subscribers == subscribers[..n] + [subscribers[n]];
      if subscribers[n] == h then subscribers[..n]
      else Remove(subscribers[..n], h) + [subscribers[n]]
  }

  /** `r` is `subscribers` without position `k`, the last subscription of `h`. */
  predicate RemovedAt(subscribers: seq<HandlerId>, h: HandlerId, r: seq<HandlerId>, k: int)
  {
    && 0 <= k < |subscribers| && subscribers[k] == h && h !in subscribers[k + 1..]
    && r == subscribers[..k] + subscribers[k + 1..]
  }

  /** Appending another handler keeps the removed position. */
  lemma RemovedAtAppend(prefix: seq<HandlerId>, h: HandlerId, r: seq<HandlerId>, k: int, x: HandlerId)
    requires RemovedAt(prefix, h, r, k) && x != h
    ensures RemovedAt(prefix + [x], h, r + [x], k)
  {
    var s := prefix + [x];
    assert s[k + 1..] == prefix[k + 1..] + [x];
    assert s[..k] == prefix[..k];
  }

  /** The subscription `-=` drops is the last one of the handler; the others keep their order. */
  lemma {:induction false} RemoveDropsLast(subscribers: seq<HandlerId>, h: HandlerId)
    requires h in subscribers
    ensures exists k :: RemovedAt(subscribers, h, Remove(subscribers, h), k)
  {
    var n := |subscribers| - 1;
    var prefix := subscribers[..n];
    assert subscribers == prefix + [subscribers[n]];
    if subscribers[n] == h {
      assert RemovedAt(subscribers, h, Remove(subscribers, h), n);
    } else {
      assert h in prefix;
      RemoveDropsLast(prefix, h);
      var k :| RemovedAt(prefix, h, Remove(prefix, h), k);
      assert Remove(subscribers, h) == Remove(prefix, h) + [subscribers[n]];
      RemovedAtAppend(prefix, h, Remove(prefix, h), k, subscribers[n]);
      assert RemovedAt(subscribers, h, Remove(subscribers, h), k);
    }
  }

  /**
   * The unsubscribe-all loop: `foreach (var d in Event.GetInvocationList()) Event -= d;`
   * after a null test. Whatever the list held, duplicates included, none remains.
   */
  method UnsubscribeAll(subscribers: seq<HandlerId>) returns (remaining: seq<HandlerId>)
    ensures remaining == []
  {
    remaining := subscribers;
    if remaining != [] {
      var invocationList := remaining;
      for i := 0 to |invocationList|
        invariant multiset(remaining) == multiset(invocationList[i..])
      {
        assert invocationList[i..] == [invocationList[i]] + invocationList[i + 1..];
        remaining := Remove(remaining, invocationList[i]);
      }
    }
  }
}
