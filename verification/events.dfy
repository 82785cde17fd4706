/**
 * Node's `events.EventEmitter`, as far as the channel buses use it: a list of
 * listeners per event name, `on`, `removeListener` and `emit`. A listener's
 * effect is not run here: `emit` records each invocation, in order, and the
 * bus that owns the listener says what the invocation does.
 */
module Events {
  import opened Results
  import opened JsValue

  /** The listener lists, one per event name; a name without listeners is absent. */
  type ListenerMap<L> = map<string, seq<L>>

  function ListenersOf<L>(m: ListenerMap<L>, name: string): seq<L>
  {
    if name in m then m[name] else []
  }

  /** `on(name, l)`: `l` goes to the end of the list, even if it is already there. */
  function Added<L>(m: ListenerMap<L>, name: string, l: L): (r: ListenerMap<L>)
    ensures ListenersOf(r, name) == ListenersOf(m, name) + [l]
    ensures forall other :: other != name ==> ListenersOf(r, other) == ListenersOf(m, other)
  {
    m[name := ListenersOf(m, name) + [l]]
  }

  /** The list without the last occurrence of `l` (the whole list if `l` is absent). */
  function RemoveLast<L(==)>(s: seq<L>, l: L): (r: seq<L>)
    ensures l !in s ==> r == s
    ensures l in s ==> |r| == |s| - 1 && multiset(r) == multiset(s) - multiset{l}
  {
    if |s| == 0 then s
    else if s[|s| - 1] == l then
      assert s == s[..|s| - 1] + [l];
      s[..|s| - 1]
    else
      var r := RemoveLast(s[..|s| - 1], l) + [s[|s| - 1]];
      assert s == s[..|s| - 1] + [s[|s| - 1]];
      r
  }

  /** `removeListener(name, l)`; a list that becomes empty is dropped. */
  function Removed<L(==)>(m: ListenerMap<L>, name: string, l: L): (r: ListenerMap<L>)
    ensures ListenersOf(r, name) == RemoveLast(ListenersOf(m, name), l)
    ensures forall other :: other != name ==> ListenersOf(r, other) == ListenersOf(m, other)
  {
    var rest := RemoveLast(ListenersOf(m, name), l);
    if |rest| == 0 then m - {name} else m[name := rest]
  }

  /** One call of a listener by `emit`, with the emitted message. */
  datatype Invocation<L> = Invocation(listener: L, message: string)

  /** The calls `emit(name, message)` makes: every listener, in list order. */
  function Invocations<L>(ls: seq<L>, message: string): (r: seq<Invocation<L>>)
    ensures |r| == |ls|
    ensures forall i :: 0 <= i < |ls| ==> r[i] == Invocation(ls[i], message)
  {
    if |ls| == 0 then [] else [Invocation(ls[0], message)] + Invocations(ls[1..], message)
  }

  class Emitter<L(==)> {
    var listeners: ListenerMap<L>
    /** Every listener call made so far, in order. */
    var invocations: seq<Invocation<L>>

    constructor()
      ensures listeners == map[] && invocations == []
    {
      listeners := map[];
      invocations := [];
    }

    method On(name: string, l: L)
      modifies this
      ensures listeners == Added(old(listeners), name, l)
      ensures invocations == old(invocations)
    {
      listeners := Added(listeners, name, l);
    }

    method RemoveListener(name: string, l: L)
      modifies this
      ensures listeners == Removed(old(listeners), name, l)
      ensures invocations == old(invocations)
    {
      listeners := Removed(listeners, name, l);
    }

    /**
     * `emit(name, message)`: calls the listeners registered at the time of
     * the call, in order. Emitting `'error'` with no listener throws.
     */
    method Emit(name: string, message: string) returns (r: Result<bool, Exception>)
      modifies this
      ensures listeners == old(listeners)
      ensures r.Err? <==> name == "error" && ListenersOf(old(listeners), name) == []
      ensures r.Ok? ==> r.value == (ListenersOf(old(listeners), name) != [])
      ensures invocations == old(invocations) + Invocations(ListenersOf(old(listeners), name), message)
    {
      var ls := ListenersOf(listeners, name);
      if name == "error" && ls == [] {
        return Err(Error("Unhandled error."));
      }
      invocations := invocations + Invocations(ls, message);
      r := Ok(ls != []);
    }
  }
}
