/**
 * The in-process pub/sub: all subscribers share one emitter, and each keeps
 * its own `channel -> handler` map. Subscribing adds a listener every time;
 * `unsubscribe` tests its guard the wrong way round, so it never removes one.
 */
module EventEmitterPubSub {
  import opened Results
  import opened JsValue
  import opened Events

  /** The closure `subscribe` registers: it re-emits `('message', channel, message)` on its subscriber. */
  class Handler {
    const owner: Subscriber
    const channel: string

    constructor(owner: Subscriber, channel: string)
      ensures this.owner == owner && this.channel == channel
    {
      this.owner := owner;
      this.channel := channel;
    }
  }

  /**
   * Every listener on the shared emitter is a handler registered for the
   * channel it listens on; `Subscribe` is the only way in, and it keeps this.
   */
  ghost predicate ChannelTagged(listeners: ListenerMap<Handler>)
    reads set ch, g | g in ListenersOf(listeners, ch) :: g
  {
    forall ch, g :: g in ListenersOf(listeners, ch) ==> g.channel == ch
  }

  /** What `removeListener` throws when handed `undefined` instead of a function. */
  const ListenerTypeError: Exception := TypeError("\"listener\" argument must be a function")

  class Subscriber {
    const emitter: Emitter<Handler>
    var subscriptions: map<string, Handler>

    /** Every handler in the map is still listening on its channel, and belongs to this subscriber. */
    ghost predicate Valid()
      reads this, emitter
    {
      forall ch :: ch in subscriptions ==>
        subscriptions[ch].owner == this && subscriptions[ch].channel == ch &&
        subscriptions[ch] in ListenersOf(emitter.listeners, ch)
    }

    /** `crateSubscriber()`: a subscriber on the shared emitter, with an empty map. */
    constructor(emitter: Emitter<Handler>)
      ensures this.emitter == emitter && subscriptions == map[] && Valid()
    {
      this.emitter := emitter;
      subscriptions := map[];
    }

    /** Adds a new listener, whatever was there, and points the map at it. */
    method Subscribe(channel: string) returns (h: Handler)
      requires Valid()
      modifies this, emitter
      ensures Valid()
      ensures fresh(h) && h.owner == this && h.channel == channel
      ensures subscriptions == old(subscriptions)[channel := h]
      ensures emitter.listeners == Added(old(emitter.listeners), channel, h)
      ensures |ListenersOf(emitter.listeners, channel)| == |old(ListenersOf(emitter.listeners, channel))| + 1
      ensures emitter.invocations == old(emitter.invocations)
      ensures ChannelTagged(old(emitter.listeners)) ==> ChannelTagged(emitter.listeners)
    {
      h := new Handler(this, channel);
      subscriptions := subscriptions[channel := h];
      emitter.On(channel, h);
      forall ch | ch in subscriptions
        ensures subscriptions[ch] in ListenersOf(emitter.listeners, ch)
      {
        if ch == channel {
          assert ListenersOf(emitter.listeners, ch) == old(ListenersOf(emitter.listeners, ch)) + [h];
        } else {
          assert ListenersOf(emitter.listeners, ch) == old(ListenersOf(emitter.listeners, ch));
        }
      }
    }

    /**
     * `unsubscribe(channel)`: a subscribed channel returns straight away; an
     * unsubscribed one passes `undefined` to `removeListener`, which throws.
     * Either way nothing changes.
     */
    method Unsubscribe(channel: string) returns (r: Result<(), Exception>)
      ensures r.Ok? <==> channel in subscriptions
      ensures r.Err? ==> r.error == ListenerTypeError
    {
      if channel in subscriptions {
        return Ok(());
      }
      r := Err(ListenerTypeError);
    }
  }

  /** After `Unsubscribe`, a subscribed channel is still delivered to this subscriber. */
  lemma SubscribedStaysListening(s: Subscriber, channel: string)
    requires s.Valid() && channel in s.subscriptions
    ensures exists h :: h in ListenersOf(s.emitter.listeners, channel) && h.owner == s && h.channel == channel
  {
    var h := s.subscriptions[channel];
    assert h in ListenersOf(s.emitter.listeners, channel);
  }

  class Publisher {
    const emitter: Emitter<Handler>

    constructor(emitter: Emitter<Handler>)
      ensures this.emitter == emitter
    {
      this.emitter := emitter;
    }

    /** `publish(channel, message)`: each listener on the channel is called once per registration, in order. */
    method Publish(channel: string, message: string) returns (r: Result<bool, Exception>)
      modifies emitter
      ensures emitter.listeners == old(emitter.listeners)
      ensures r.Err? <==> channel == "error" && ListenersOf(emitter.listeners, channel) == []
      ensures emitter.invocations == old(emitter.invocations) + Invocations(ListenersOf(emitter.listeners, channel), message)
    {
      r := emitter.Emit(channel, message);
    }
  }

  /** A handler gets one call for each time it appears in the channel's list. */
  function CallsTo(calls: seq<Invocation<Handler>>, h: Handler): nat
  {
    if |calls| == 0 then 0 else (if calls[0].listener == h then 1 else 0) + CallsTo(calls[1..], h)
  }

  lemma {:induction false} CallsToCount(ls: seq<Handler>, h: Handler, message: string)
    ensures CallsTo(Invocations(ls, message), h) == multiset(ls)[h]
  {
    if |ls| > 0 {
      CallsToCount(ls[1..], h, message);
      assert Invocations(ls, message)[1..] == Invocations(ls[1..], message);
      assert ls == [ls[0]] + ls[1..];
    }
  }

  /** No listener of another channel is called by a publish. */
  lemma PublishStaysOnChannel(listeners: ListenerMap<Handler>, channel: string, message: string, h: Handler)
    requires ChannelTagged(listeners)
    requires h.channel != channel
    ensures CallsTo(Invocations(ListenersOf(listeners, channel), message), h) == 0
  {
    CallsToCount(ListenersOf(listeners, channel), h, message);
    assert h !in ListenersOf(listeners, channel);
  }
}
