/**
 * The event bus: handlers registered per event kind, invoked in
 * registration order when an event of that kind fires, and a message log
 * that keeps only the 20 newest entries. Handlers are opaque ids; firing
 * records each invocation in a trace.
 */
module GameEventBus {

  import opened Common

  const MAX_LOG: nat := 20

  /** An opaque handler. */
  type HandlerId = nat

  /** One handler invoked with one payload for one event kind. */
  datatype Invocation = Invocation(handler: HandlerId, eventType: EventType, payload: string)

  /** The invocations that firing an event of kind t with payload p makes, one per handler in order. */
  function Calls(handlers: seq<HandlerId>, t: EventType, p: string): (r: seq<Invocation>)
    ensures |r| == |handlers|
    ensures forall i :: 0 <= i < |r| ==> r[i] == Invocation(handlers[i], t, p)
  {
    if handlers == [] then [] else Calls(handlers[..|handlers| - 1], t, p) + [Invocation(handlers[|handlers| - 1], t, p)]
  }

  /** A log holding at most limit entries with msg appended as the newest, dropping the oldest once it would exceed limit. */
  function Appended(log: seq<string>, msg: string, limit: nat): (r: seq<string>)
    ensures 0 < limit && |log| <= limit ==> |r| <= limit
    ensures 0 < limit || log != [] ==> |r| > 0 && r[|r| - 1] == msg
    ensures |log| < limit ==> r == log + [msg]
    ensures |log| >= limit ==> r == (log + [msg])[1..]
  {
    if |log| + 1 > limit then (log + [msg])[1..] else log + [msg]
  }

  class GameEvents {
    var listeners: map<EventType, seq<HandlerId>>
    var eventLog: seq<string>
    /** Every handler invocation so far, oldest first. */
    var trace: seq<Invocation>

    ghost predicate Valid()
      reads this
    {
      |eventLog| <= MAX_LOG
    }

    constructor ()
      ensures listeners == map[] && eventLog == [] && trace == []
      ensures Valid()
    {
      listeners := map[];
      eventLog := [];
      trace := [];
    }

    /** The handlers registered for t, in registration order. */
    function HandlersFor(t: EventType): seq<HandlerId>
      reads this
    {
      if t in listeners then listeners[t] else []
    }

    /** Appends h to t's handlers; other kinds keep theirs. */
    method On(t: EventType, h: HandlerId)
      modifies this`listeners
      ensures HandlersFor(t) == old(HandlersFor(t)) + [h]
      ensures forall u :: u != t ==> HandlersFor(u) == old(HandlersFor(u))
    {
      listeners := listeners[t := HandlersFor(t) + [h]];
    }

    /** Invokes t's handlers in registration order; with none registered nothing happens. */
    method Fire(t: EventType, payload: string)
      modifies this`trace
      ensures trace == old(trace) + Calls(HandlersFor(t), t, payload)
      ensures HandlersFor(t) == [] ==> trace == old(trace)
    {
      var handlers := HandlersFor(t);
      for i := 0 to |handlers|
        invariant trace == old(trace) + Calls(handlers[..i], t, payload)
      {
        assert handlers[..i + 1][..i] == handlers[..i];
        trace := trace + [Invocation(handlers[i], t, payload)];
      }
      assert handlers[..|handlers|] == handlers;
    }

    /** Appends msg as the newest entry, dropping the oldest beyond MAX_LOG. */
    method Log(msg: string)
      modifies this`eventLog
      ensures eventLog == Appended(old(eventLog), msg, MAX_LOG)
      ensures old(Valid()) ==> Valid()
    {
      eventLog := eventLog + [msg];
      if |eventLog| > MAX_LOG {
        eventLog := eventLog[1..];
      }
    }

    /** Fire followed by Log. */
    method FireAndLog(t: EventType, payload: string, msg: string)
      modifies this`trace, this`eventLog
      ensures trace == old(trace) + Calls(HandlersFor(t), t, payload)
      ensures eventLog == Appended(old(eventLog), msg, MAX_LOG)
      ensures old(Valid()) ==> Valid()
    {
      Fire(t, payload);
      Log(msg);
    }

    /** Drops every handler and leaves the log untouched. */
    method ClearListeners()
      modifies this`listeners
      ensures listeners == map[]
      ensures forall t :: HandlersFor(t) == []
    {
      listeners := map[];
    }
  }
}
