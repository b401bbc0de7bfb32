/** The synchronous publish/subscribe bus of julesv1/src/utils/EventBus.ts.
    A handler is an identifier; calling it is recorded as a `Delivery` in the
    bus's trace, in call order. */
module Events {

  type HandlerId = nat

  /** The only payload the core emits: `{ entityId, regionId }`. */
  datatype Payload = RegionChange(entityId: string, regionId: string)

  /** One call `handler(payload, source)` made by `emit(eventType, payload, source)`. */
  datatype Delivery = Delivery(handler: HandlerId, eventType: string, payload: Payload, source: string)

  /** The calls `handlers.forEach(h => h(payload, source))` makes. */
  function Deliveries(handlers: seq<HandlerId>, t: string, p: Payload, src: string): (r: seq<Delivery>)
    ensures |r| == |handlers|
    ensures forall i | 0 <= i < |r| :: r[i] == Delivery(handlers[i], t, p, src)
  {
    if handlers == [] then [] else Deliveries(handlers[..|handlers| - 1], t, p, src) + [Delivery(handlers[|handlers| - 1], t, p, src)]
  }

  function Count(s: seq<HandlerId>, h: HandlerId): nat {
    if s == [] then 0 else Count(s[..|s| - 1], h) + (if s[|s| - 1] == h then 1 else 0)
  }

  function DeliveriesTo(r: seq<Delivery>, h: HandlerId): nat {
    if r == [] then 0 else DeliveriesTo(r[..|r| - 1], h) + (if r[|r| - 1].handler == h then 1 else 0)
  }

  /** A handler registered n times for a type is called exactly n times by one emit. */
  lemma {:induction false} EachRegistrationCalledOnce(handlers: seq<HandlerId>, h: HandlerId, t: string, p: Payload, src: string)
    ensures DeliveriesTo(Deliveries(handlers, t, p, src), h) == Count(handlers, h)
  {
    if handlers != [] {
      var r := Deliveries(handlers, t, p, src);
      assert r[..|r| - 1] == Deliveries(handlers[..|handlers| - 1], t, p, src);
      EachRegistrationCalledOnce(handlers[..|handlers| - 1], h, t, p, src);
    }
  }

  /** `Array.prototype.indexOf`: the first position of h, or -1. */
  function IndexOf(s: seq<HandlerId>, h: HandlerId): (i: int)
    ensures i == -1 <==> h !in s
    ensures i != -1 ==> 0 <= i < |s| && s[i] == h && h !in s[..i]
  {
    if s == [] then -1
    else if s[0] == h then 0
    else
      var j := IndexOf(s[1..], h);
      assert s[1..][..j + 1] == s[1..j + 2];
      if j == -1 then -1 else j + 1
  }

  /** `off`'s `splice(indexOf(h), 1)`, applied only when h is present. */
  function RemoveFirst(s: seq<HandlerId>, h: HandlerId): (r: seq<HandlerId>)
    ensures h !in s ==> r == s
    ensures h in s ==> exists i | 0 <= i < |s| :: s[i] == h && h !in s[..i] && r == s[..i] + s[i + 1..]
    ensures h in s ==> |r| == |s| - 1 && multiset(r) == multiset(s) - multiset{h}
  {
    var i := IndexOf(s, h);
    if i < 0 then s
    else
      assert s == s[..i] + [s[i]] + s[i + 1..];
      s[..i] + s[i + 1..]
  }

  /** The handler list a listener map holds for a type (none when absent). */
  function HandlersIn(listeners: map<string, seq<HandlerId>>, t: string): seq<HandlerId> {
    if t in listeners then listeners[t] else []
  }

  /** An event to publish: its type and payload. */
  datatype Notice = Notice(eventType: string, payload: Payload)

  /** The handler calls made by emitting each notice in turn from one source. */
  function Dispatch(listeners: map<string, seq<HandlerId>>, ns: seq<Notice>, src: string): seq<Delivery> {
    if ns == [] then []
    else
      var n := ns[|ns| - 1];
      Dispatch(listeners, ns[..|ns| - 1], src) + Deliveries(HandlersIn(listeners, n.eventType), n.eventType, n.payload, src)
  }

  /** Emitting two batches in turn makes the calls of the first, then those of the second. */
  lemma {:induction false} DispatchAppend(listeners: map<string, seq<HandlerId>>, a: seq<Notice>, b: seq<Notice>, src: string)
    ensures Dispatch(listeners, a + b, src) == Dispatch(listeners, a, src) + Dispatch(listeners, b, src)
  {
    if b != [] {
      assert (a + b)[..|a + b| - 1] == a + b[..|b| - 1];
      DispatchAppend(listeners, a, b[..|b| - 1], src);
    } else {
      assert a + b == a;
    }
  }

  class EventBus {
    /** Handler lists per event type, in registration order. */
    var listeners: map<string, seq<HandlerId>>
    /** Every handler call made by `emit`, in call order. */
    var trace: seq<Delivery>

    constructor ()
      ensures listeners == map[] && trace == []
    {
      listeners := map[];
      trace := [];
    }

    /** The handlers `emit` would call for a type (none when the type was never registered). */
    function Handlers(t: string): seq<HandlerId>
      reads this
    {
      HandlersIn(listeners, t)
    }

    /** `on(type, handler)`: appends to that type's list; other types are untouched. */
    method On(t: string, h: HandlerId)
      modifies this`listeners
      ensures listeners == old(listeners)[t := old(Handlers(t)) + [h]]
    {
      if t !in listeners {
        listeners := listeners[t := []];
      }
      listeners := listeners[t := listeners[t] + [h]];
    }

    /** `off(type, handler)`: removes the first occurrence only; a handler not
        registered for the type changes nothing. */
    method Off(t: string, h: HandlerId)
      modifies this`listeners
      ensures t in old(listeners) ==> listeners == old(listeners)[t := RemoveFirst(old(listeners)[t], h)]
      ensures t !in old(listeners) || h !in old(listeners)[t] ==> listeners == old(listeners)
    {
      if t in listeners {
        var handlers := listeners[t];
        var index := IndexOf(handlers, h);
        if index > -1 {
          listeners := listeners[t := handlers[..index] + handlers[index + 1..]];
        }
      }
    }

    /** `emit(type, payload, source)`: calls every registered handler once, in
        registration order; nothing happens for a type without handlers. */
    method Emit(t: string, p: Payload, src: string)
      modifies this`trace
      ensures trace == old(trace) + Deliveries(HandlersIn(listeners, t), t, p, src)
    {
      if t in listeners {
        var handlers := listeners[t];
        var i := 0;
        while i < |handlers|
          invariant 0 <= i <= |handlers|
          invariant trace == old(trace) + Deliveries(handlers[..i], t, p, src)
        {
          assert handlers[..i + 1][..i] == handlers[..i];
          trace := trace + [Delivery(handlers[i], t, p, src)];
          i := i + 1;
        }
        assert handlers[..|handlers|] == handlers;
      }
    }
  }

  /** Registering then emitting: the new handler is called last, after every
      earlier registration for the same type. */
  lemma RegisteredLastIsCalledLast(handlers: seq<HandlerId>, h: HandlerId, t: string, p: Payload, src: string)
    ensures var r := Deliveries(handlers + [h], t, p, src);
      r[|r| - 1].handler == h && r[..|r| - 1] == Deliveries(handlers, t, p, src)
  {
    var r := Deliveries(handlers + [h], t, p, src);
    assert (handlers + [h])[..|handlers|] == handlers;
  }
}
