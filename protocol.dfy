/** The value-level part of a client's frame handling: decoded JSON values, the
    `{event, data, ackId?}` frame read from a connection, the listeners a
    client registers, and the dispatch of one decoded frame to at most one
    listener and at most one acknowledgement frame. */
module Protocol {

  datatype Option<+T> = None | Some(value: T)

  datatype Result<+T, +E> = Ok(value: T) | Err(error: E)

  /** A value as the JSON codec decodes it into Go's `interface{}`. */
  datatype Value =
    | Null
    | Bool(b: bool)
    | Number(n: real)
    | Str(s: string)
    | Array(items: seq<Value>)
    | Object(fields: map<string, Value>)

  /** An outgoing frame: the Go code writes `{"event": event, "data": data}`. */
  datatype Frame = Frame(event: string, data: Value)

  /** The JSON object a frame is written as. */
  function Encode(f: Frame): map<string, Value> {
    map["event" := Str(f.event), "data" := f.data]
  }

  /** Identity of a user-supplied listener function. */
  type HandlerId = nat

  /** What each user-supplied listener returns for the data it is given. */
  type Behaviour = (HandlerId, map<string, Value>) -> Value

  /** A registered listener: a user function, the wrapper `Once` builds
      around a listener, which deletes the event name it captured and then
      calls what it wraps, or a nil function (`On(e, nil)` stores one, and
      `Once(e, nil)` wraps one), whose call panics. */
  datatype Listener =
    | Plain(handler: HandlerId)
    | OnceWrapper(eventName: string, inner: Listener)
    | NilListener

  /** The listener ends in a user function rather than in a nil one. */
  predicate Callable(l: Listener) {
    match l
    case Plain(_) => true
    case OnceWrapper(_, inner) => Callable(inner)
    case NilListener => false
  }

  /** The user function a callable listener ends up calling. */
  function Handler(l: Listener): HandlerId
    requires Callable(l)
  {
    match l
    case Plain(h) => h
    case OnceWrapper(_, inner) => Handler(inner)
  }

  /** The event names a listener deletes from its client's registry when it runs. */
  function OnceKeys(l: Listener): set<string> {
    match l
    case Plain(_) => {}
    case OnceWrapper(e, inner) => {e} + OnceKeys(inner)
    case NilListener => {}
  }

  /** The registry after a listener ran, and the user function's result, or
      `None` when the call reached a nil function. */
  datatype Invoked = Invoked(events: map<string, Listener>, result: Option<Value>)

  /** Running listener `l` against the registry `events`: each once wrapper
      deletes its own name, also when what it wraps turns out to be nil, and
      the user function's result is passed back unchanged. */
  function Invoke(l: Listener, events: map<string, Listener>, data: map<string, Value>, run: Behaviour): (r: Invoked)
    ensures r.result.Some? <==> Callable(l)
    ensures Callable(l) ==> r.result.value == run(Handler(l), data)
    ensures r.events.Keys == events.Keys - OnceKeys(l)
    ensures forall k :: k in r.events ==> r.events[k] == events[k]
    ensures l.OnceWrapper? ==> l.eventName !in r.events
    ensures !l.OnceWrapper? ==> r.events == events
  {
    match l
    case Plain(h) => Invoked(events, Some(run(h, data)))
    case OnceWrapper(e, inner) => Invoke(inner, events - {e}, data, run)
    case NilListener => Invoked(events, None)
  }

  /** What makes `handleClientData` panic: a failed type assertion on the
      decoded frame, or a call of a nil listener. */
  datatype Panic = EventNotString | DataNotObject | AckIdNotString | NilListenerCalled

  /** A frame read from a connection, after its fields were checked. */
  datatype Inbound = Inbound(event: string, data: map<string, Value>, ackId: string)

  predicate EventIsString(m: map<string, Value>) {
    "event" in m && m["event"].Str?
  }

  predicate DataIsObject(m: map<string, Value>) {
    "data" in m && m["data"].Object?
  }

  /** `data["ackId"] != nil`: a missing key and a JSON null both read as nil. */
  predicate HasAckId(m: map<string, Value>) {
    "ackId" in m && !m["ackId"].Null?
  }

  /** The field extraction at the top of `handleClientData`. */
  function ParseFrame(m: map<string, Value>): (r: Result<Inbound, Panic>)
    ensures r.Ok? <==> EventIsString(m) && DataIsObject(m) && (HasAckId(m) ==> m["ackId"].Str?)
    ensures r == Err(EventNotString) <==> !EventIsString(m)
    ensures r == Err(DataNotObject) <==> EventIsString(m) && !DataIsObject(m)
    ensures r == Err(AckIdNotString) <==> EventIsString(m) && DataIsObject(m) && HasAckId(m) && !m["ackId"].Str?
    ensures r.Ok? ==> r.value.event == m["event"].s && r.value.data == m["data"].fields
    ensures r.Ok? && HasAckId(m) ==> r.value.ackId == m["ackId"].s
    ensures r.Ok? && !HasAckId(m) ==> r.value.ackId == ""
  {
    if !EventIsString(m) then Err(EventNotString)
    else if !DataIsObject(m) then Err(DataNotObject)
    else if HasAckId(m) && !m["ackId"].Str? then Err(AckIdNotString)
    else Ok(Inbound(m["event"].s, m["data"].fields, if HasAckId(m) then m["ackId"].s else ""))
  }

  /** A frame as a well-behaved sender writes it: `ackId` only when non-empty. */
  function EncodeInbound(f: Inbound): map<string, Value> {
    var base := map["event" := Str(f.event), "data" := Object(f.data)];
    if f.ackId == "" then base else base["ackId" := Str(f.ackId)]
  }

  const ACK_MARKER: string := "@ack:"

  /** Name of the acknowledgement event for event `e` and correlation id `id`. */
  function AckName(e: string, id: string): (r: string)
    ensures |r| == |e| + |ACK_MARKER| + |id|
    ensures r[..|e|] == e && r[|e|..|e| + |ACK_MARKER|] == ACK_MARKER
    ensures r[|e| + |ACK_MARKER|..] == id
  {
    e + ACK_MARKER + id
  }

  datatype Call = Call(handler: HandlerId, data: map<string, Value>)

  /** Outcome of dispatching one valid frame: the registry afterwards, the user
      function called (if any), and the acknowledgement frame sent back (if any). */
  datatype Dispatched = Dispatched(events: map<string, Listener>, call: Option<Call>, reply: Option<Frame>)

  /** A panic, with the registry as it stood when it happened. */
  datatype Fault = Fault(events: map<string, Listener>, panic: Panic)

  /** The registry a dispatch leaves behind, whether it ended normally or in a panic. */
  function Registry(r: Result<Dispatched, Fault>): map<string, Listener> {
    if r.Ok? then r.value.events else r.error.events
  }

  /** The frame is well-typed and its event is bound to a listener that ends
      in a nil function. */
  predicate CallsNil(events: map<string, Listener>, m: map<string, Value>) {
    ParseFrame(m).Ok? && ParseFrame(m).value.event in events && !Callable(events[ParseFrame(m).value.event])
  }

  /** `handleClientData` on the registry `events` and the decoded frame `m`. */
  function Dispatch(events: map<string, Listener>, m: map<string, Value>, run: Behaviour): (r: Result<Dispatched, Fault>)
    ensures r.Err? <==> ParseFrame(m).Err? || CallsNil(events, m)
    ensures ParseFrame(m).Err? ==> r == Err(Fault(events, ParseFrame(m).error))
    ensures ParseFrame(m).Ok? && ParseFrame(m).value.event !in events ==> r == Ok(Dispatched(events, None, None))
    ensures ParseFrame(m).Ok? && ParseFrame(m).value.event in events ==>
      var f := ParseFrame(m).value;
      var l := events[f.event];
      && Registry(r).Keys == events.Keys - OnceKeys(l)
      && (forall k :: k in Registry(r) ==> Registry(r)[k] == events[k])
      && (!Callable(l) ==> r.error.panic == NilListenerCalled)
      && (Callable(l) ==>
            && r.value.call == Some(Call(Handler(l), f.data))
            && (r.value.reply.Some? <==> f.ackId != "")
            && (f.ackId != "" ==>
                  r.value.reply.value == Frame(AckName(f.event, f.ackId), Object(map["result" := run(Handler(l), f.data)]))))
  {
    match ParseFrame(m)
    case Err(p) => Err(Fault(events, p))
    case Ok(f) =>
      if f.event !in events then Ok(Dispatched(events, None, None))
      else
        var l := events[f.event];
        var inv := Invoke(l, events, f.data, run);
        if inv.result.None? then Err(Fault(inv.events, NilListenerCalled))
        else
          var reply := if f.ackId != "" then Some(Frame(AckName(f.event, f.ackId), Object(map["result" := inv.result.value]))) else None;
          Ok(Dispatched(inv.events, Some(Call(Handler(l), f.data)), reply))
  }

  /** A frame a sender encodes is read back as the same frame. */
  lemma ParseEncoded(f: Inbound)
    ensures ParseFrame(EncodeInbound(f)) == Ok(f)
  {
    var m := EncodeInbound(f);
    assert "event" != "data" && "event" != "ackId" && "data" != "ackId" by {
      assert "event"[0] != "data"[0] && "event"[0] != "ackId"[0] && "data"[0] != "ackId"[0];
    }
    assert m["event"] == Str(f.event) && m["data"] == Object(f.data);
    assert HasAckId(m) <==> f.ackId != "";
  }

  /** What every client writes is itself a frame without `ackId`; in particular
      an acknowledgement reaches its requester as the frame named
      `event@ack:id` whose data is `{"result": r}`. */
  lemma ParseEmitted(f: Frame)
    requires f.data.Object?
    ensures ParseFrame(Encode(f)) == Ok(Inbound(f.event, f.data.fields, ""))
  {
    assert "event" != "data" && "ackId" !in Encode(f) by {
      assert "event"[0] != "data"[0] && "event"[0] != "ackId"[0] && "data"[0] != "ackId"[0];
    }
  }

  /** The requester recovers its correlation id from the reply's name, so for
      a fixed event two ids never share a reply name. */
  lemma AckNameInjective(e: string, id1: string, id2: string)
    requires AckName(e, id1) == AckName(e, id2)
    ensures id1 == id2
  {
  }

  /** Across different events the reply name is ambiguous: an event name that
      itself contains `@ack:` can produce another event's reply name. */
  lemma AckNameCollision()
    ensures AckName("a@ack:b", "c") == AckName("a", "b@ack:c")
  {
  }

  /** A listener installed with `Once` under its own name runs for the first
      matching frame only (or panics there, when what it wraps is nil): the
      same frame dispatched again finds no listener. */
  lemma OnceFiresOnce(events: map<string, Listener>, m: map<string, Value>, run: Behaviour)
    requires ParseFrame(m).Ok?
    requires ParseFrame(m).value.event in events
    requires events[ParseFrame(m).value.event].OnceWrapper?
    requires events[ParseFrame(m).value.event].eventName == ParseFrame(m).value.event
    ensures var first := Dispatch(events, m, run);
      && (first.Ok? <==> Callable(events[ParseFrame(m).value.event]))
      && (first.Ok? ==> first.value.call.Some?)
    ensures var after := Registry(Dispatch(events, m, run));
      Dispatch(after, m, run) == Ok(Dispatched(after, None, None))
  {
  }

  /** A listener installed with `On` keeps the registry unchanged, so it runs
      again, with the same result, for every matching frame. */
  lemma PlainFiresEveryTime(events: map<string, Listener>, m: map<string, Value>, run: Behaviour)
    requires ParseFrame(m).Ok?
    requires ParseFrame(m).value.event in events
    requires events[ParseFrame(m).value.event].Plain?
    ensures Dispatch(events, m, run).Ok?
    ensures Dispatch(events, m, run).value.events == events
  {
  }

  /** After `Off` removes the listener of a frame's event, that frame calls
      nothing and is not acknowledged, whatever its `ackId`. */
  lemma OffSilences(events: map<string, Listener>, m: map<string, Value>, run: Behaviour)
    requires ParseFrame(m).Ok?
    ensures var unbound := events - {ParseFrame(m).value.event};
      Dispatch(unbound, m, run) == Ok(Dispatched(unbound, None, None))
  {
  }

  /** A listener bound with `On(e, nil)` panics on every matching frame and
      stays bound; every other key of the registry is left as it was. */
  lemma NilListenerPanics(events: map<string, Listener>, m: map<string, Value>, run: Behaviour)
    requires ParseFrame(m).Ok?
    ensures var bound := events[ParseFrame(m).value.event := NilListener];
      Dispatch(bound, m, run) == Err(Fault(bound, NilListenerCalled))
  {
  }
}
