/**
 * The in-process message queue: one module-wide emitter and one module-wide
 * `channel -> handler` map shared by every consumer. Subscribing replaces the
 * channel's handler, whoever registered it.
 */
module EventEmitterMQ {
  import opened Results
  import opened JsValue
  import opened Events

  /** The closure `subscribe` registers: it re-emits `('message', channel, message)` on its consumer. */
  class Handler {
    const owner: Consumer
    const channel: string

    constructor(owner: Consumer, channel: string)
      ensures this.owner == owner && this.channel == channel
    {
      this.owner := owner;
      this.channel := channel;
    }
  }

  /** What one handler call does: consumer `owner` emits `message` with `channel` and the text. */
  datatype Delivery = Delivery(owner: Consumer, channel: string, message: string)

  function DeliveryOf(i: Invocation<Handler>): Delivery
  {
    Delivery(i.listener.owner, i.listener.channel, i.message)
  }

  function Deliveries(calls: seq<Invocation<Handler>>): (d: seq<Delivery>)
    ensures |d| == |calls| && forall k :: 0 <= k < |calls| ==> d[k] == DeliveryOf(calls[k])
  {
    if |calls| == 0 then [] else [DeliveryOf(calls[0])] + Deliveries(calls[1..])
  }

  /** Each channel has exactly the listener `subscriptions` holds for it, or none. */
  ghost predicate InStep(m: ListenerMap<Handler>, subscriptions: map<string, Handler>)
  {
    forall ch :: ListenersOf(m, ch) == (if ch in subscriptions then [subscriptions[ch]] else [])
  }

  /** Adding `h` on a channel nobody holds keeps the listeners and the map in step once `h` holds it. */
  lemma AddedInStep(m: ListenerMap<Handler>, subscriptions: map<string, Handler>, channel: string, h: Handler)
    requires InStep(m, subscriptions) && channel !in subscriptions
    ensures InStep(Added(m, channel, h), subscriptions[channel := h])
  {
    var r := Added(m, channel, h);
    assert ListenersOf(r, channel) == [h];
  }

  /** Taking a key out and setting it is setting it. */
  lemma RemoveThenSet(m: map<string, Handler>, k: string, h: Handler)
    ensures (m - {k})[k := h] == m[k := h]
  {
  }

  /** The module state: the shared emitter and the `subscriptions` map. */
  class Bus {
    const emitter: Emitter<Handler>
    var subscriptions: map<string, Handler>

    /** Each channel has exactly the listener the map holds for it, or none. */
    ghost predicate Valid()
      reads this, emitter
    {
      InStep(emitter.listeners, subscriptions) &&
      (forall ch :: ch in subscriptions ==> subscriptions[ch].channel == ch)
    }

    constructor()
      ensures Valid() && fresh(emitter)
      ensures subscriptions == map[] && emitter.listeners == map[] && emitter.invocations == []
    {
      emitter := new Emitter();
      subscriptions := map[];
    }

    /** The module-level `unsubscribe`. */
    method Unsubscribe(channel: string)
      requires Valid()
      modifies this, emitter
      ensures Valid()
      ensures channel !in old(subscriptions) ==>
        subscriptions == old(subscriptions) && emitter.listeners == old(emitter.listeners)
      ensures channel in old(subscriptions) ==>
        subscriptions == old(subscriptions) - {channel} &&
        emitter.listeners == Removed(old(emitter.listeners), channel, old(subscriptions)[channel])
      ensures ListenersOf(emitter.listeners, channel) == []
      ensures forall ch :: ch != channel ==> ListenersOf(emitter.listeners, ch) == old(ListenersOf(emitter.listeners, ch))
      ensures emitter.invocations == old(emitter.invocations)
    {
      if channel !in subscriptions {
        return;
      }
      emitter.RemoveListener(channel, subscriptions[channel]);
      subscriptions := subscriptions - {channel};
      assert RemoveLast([old(subscriptions)[channel]], old(subscriptions)[channel]) == [];
    }

    /** `Consumer.subscribe` on the module state: the old handler goes, a new one takes the channel. */
    method Subscribe(consumer: Consumer, channel: string) returns (h: Handler)
      requires Valid()
      modifies this, emitter
      ensures Valid()
      ensures fresh(h) && h.owner == consumer && h.channel == channel
      ensures subscriptions == old(subscriptions)[channel := h]
      ensures ListenersOf(emitter.listeners, channel) == [h]
      ensures forall ch :: ch != channel ==> ListenersOf(emitter.listeners, ch) == old(ListenersOf(emitter.listeners, ch))
      ensures emitter.invocations == old(emitter.invocations)
    {
      Unsubscribe(channel);
      h := new Handler(consumer, channel);
      RemoveThenSet(old(subscriptions), channel, h);
      AddedInStep(emitter.listeners, subscriptions, channel, h);
      subscriptions := subscriptions[channel := h];
      emitter.On(channel, h);
    }
  }

  class Consumer {
    const bus: Bus

    /** `createSubscriber()`: a consumer on the module state. */
    constructor(bus: Bus)
      ensures this.bus == bus
    {
      this.bus := bus;
    }

    method Subscribe(channel: string) returns (h: Handler)
      requires bus.Valid()
      modifies bus, bus.emitter
      ensures bus.Valid()
      ensures fresh(h) && h.owner == this && h.channel == channel
      ensures bus.subscriptions == old(bus.subscriptions)[channel := h]
      ensures ListenersOf(bus.emitter.listeners, channel) == [h]
      ensures forall ch :: ch != channel ==> ListenersOf(bus.emitter.listeners, ch) == old(ListenersOf(bus.emitter.listeners, ch))
      ensures bus.emitter.invocations == old(bus.emitter.invocations)
    {
      h := bus.Subscribe(this, channel);
    }

    method Unsubscribe(channel: string)
      requires bus.Valid()
      modifies bus, bus.emitter
      ensures bus.Valid()
      ensures bus.subscriptions == old(bus.subscriptions) - {channel}
      ensures ListenersOf(bus.emitter.listeners, channel) == []
      ensures forall ch :: ch != channel ==> ListenersOf(bus.emitter.listeners, ch) == old(ListenersOf(bus.emitter.listeners, ch))
      ensures bus.emitter.invocations == old(bus.emitter.invocations)
    {
      bus.Unsubscribe(channel);
    }
  }

  class Publisher {
    const emitter: Emitter<Handler>

    /** `createPublisher()`: a publisher on the module emitter. */
    constructor(bus: Bus)
      ensures emitter == bus.emitter
    {
      emitter := bus.emitter;
    }

    /**
     * `publish(channel, message)`: every handler on the channel runs once,
     * in order, each forwarding to its own consumer.
     */
    method Publish(channel: string, message: string) returns (r: Result<bool, Exception>)
      modifies emitter
      ensures emitter.listeners == old(emitter.listeners)
      ensures r.Err? <==> channel == "error" && ListenersOf(emitter.listeners, channel) == []
      ensures emitter.invocations == old(emitter.invocations) + Invocations(ListenersOf(emitter.listeners, channel), message)
      ensures Deliveries(emitter.invocations) == old(Deliveries(emitter.invocations)) +
        Deliveries(Invocations(ListenersOf(emitter.listeners, channel), message))
    {
      r := emitter.Emit(channel, message);
      DeliveriesAppend(old(emitter.invocations), Invocations(ListenersOf(emitter.listeners, channel), message));
    }
  }

  lemma {:induction false} DeliveriesAppend(a: seq<Invocation<Handler>>, b: seq<Invocation<Handler>>)
    ensures Deliveries(a + b) == Deliveries(a) + Deliveries(b)
  {
  }

  /**
   * On a consistent bus, publishing reaches exactly the consumer that
   * subscribed to the channel last, once, or nobody.
   */
  lemma PublishReachesLastSubscriber(bus: Bus, channel: string, message: string)
    requires bus.Valid()
    ensures Deliveries(Invocations(ListenersOf(bus.emitter.listeners, channel), message)) ==
      if channel in bus.subscriptions
      then [Delivery(bus.subscriptions[channel].owner, channel, message)]
      else []
  {
  }
}
