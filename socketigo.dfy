/** The hub of the event bus: its list of connected clients and its list of
    rooms, each client's event registry and frame handling, room membership,
    and the broadcasts of the hub and of a room.

    The network is a `Trace`: every frame written to a client's socket, every
    socket close and every user callback called is appended to it in order.
    User callbacks are opaque; a registered callback is identified by a
    `HookId` and its call is recorded with its argument. */
module SocketIgo {
  import opened Protocol
  import Lists

  /** The uuid a client is given when it is created, supplied by the caller. */
  type ClientId = nat

  /** Identity of a user callback (pre-connect, connected, disconnected,
      error, joined or left). */
  type HookId = nat

  datatype Options = Options(ReadBufferSize: int, WriteBufferSize: int)

  /** The errors the hub passes to its error callback. */
  datatype Failure = UpgradeFailed | DecodeFailed

  datatype Effect =
    | Sent(to: Client, frame: Frame)                                       // one frame written to `to`'s socket
    | Listened(at: Client, handler: HandlerId, data: map<string, Value>)  // a registered listener called
    | Hooked(hook: HookId, subject: Client)                               // connected, disconnected, joined or left callback
    | PreConnectHooked(hook: HookId)                                      // pre-connect callback, given the raw connection
    | ErrorHooked(hook: HookId, failure: Failure)                         // error callback
    | Closed(conn: Client)                                                // the client's socket closed

  class Trace {
    var effects: seq<Effect>

    constructor ()
      ensures effects == []
    {
      effects := [];
    }
  }

  /** The call of an optional callback slot with `subject`: nothing when the slot is nil. */
  function HookCall(hook: Option<HookId>, subject: Client): seq<Effect> {
    if hook.Some? then [Hooked(hook.value, subject)] else []
  }

  /** One frame to each recipient, in the order of the list. */
  function Sends(recipients: seq<Client>, f: Frame): seq<Effect> {
    seq(|recipients|, i requires 0 <= i < |recipients| => Sent(recipients[i], f))
  }

  lemma SendsSnoc(recipients: seq<Client>, c: Client, f: Frame)
    ensures Sends(recipients + [c], f) == Sends(recipients, f) + [Sent(c, f)]
  {
  }

  /** How many frames `effects` writes to `c`'s socket. */
  function Deliveries(effects: seq<Effect>, c: Client): nat {
    if effects == [] then 0
    else (if effects[0].Sent? && effects[0].to == c then 1 else 0) + Deliveries(effects[1..], c)
  }

  /** A broadcast over a list reaches each client once per entry of it in the
      list, so a client listed twice gets the frame twice and a client not
      listed gets nothing. */
  lemma {:induction false} SendsReachEachEntry(recipients: seq<Client>, f: Frame, c: Client)
    ensures Deliveries(Sends(recipients, f), c) == multiset(recipients)[c]
  {
    if recipients != [] {
      var rest := recipients[1..];
      assert recipients == [recipients[0]] + rest;
      assert Sends(recipients, f)[1..] == Sends(rest, f);
      SendsReachEachEntry(rest, f, c);
    }
  }

  /** A broadcast that skips `except` never reaches it, and reaches every other
      client once per entry of it in the list. */
  lemma SendsExceptReach(recipients: seq<Client>, except: Client, f: Frame, c: Client)
    ensures Deliveries(Sends(Lists.Except(recipients, except), f), c) ==
            if c == except then 0 else multiset(recipients)[c]
  {
    SendsReachEachEntry(Lists.Except(recipients, except), f, c);
    Lists.ExceptCounts(recipients, except);
    if c != except && c !in recipients {
      assert c !in Lists.Except(recipients, except);
    }
  }

  /** Skipping a client that is not in the list changes nothing. */
  lemma SendsExceptNonMember(recipients: seq<Client>, except: Client, f: Frame)
    requires except !in recipients
    ensures Sends(Lists.Except(recipients, except), f) == Sends(recipients, f)
  {
    Lists.ExceptCounts(recipients, except);
  }

  class Client {
    const Id: ClientId
    var Events: map<string, Listener>
    const Server: IgoServer

    /** `createClient`: a fresh client of `server` with no listeners. */
    constructor (server: IgoServer, id: ClientId)
      ensures Server == server && Id == id && Events == map[]
    {
      Server := server;
      Id := id;
      Events := map[];
    }

    /** Writes the frame `{event, data}` to this client's socket. */
    method Emit(eventName: string, data: Value, trace: Trace)
      modifies trace
      ensures trace.effects == old(trace.effects) + [Sent(this, Frame(eventName, data))]
    {
      trace.effects := trace.effects + [Sent(this, Frame(eventName, data))];
    }

    method Close(trace: Trace)
      modifies trace
      ensures trace.effects == old(trace.effects) + [Closed(this)]
    {
      trace.effects := trace.effects + [Closed(this)];
    }

    /** Binds `listener` to `eventName`, replacing any listener bound to it. */
    method On(eventName: string, listener: Listener)
      modifies this
      ensures Events == old(Events)[eventName := listener]
    {
      Events := Events[eventName := listener];
    }

    /** Binds a wrapper that removes `eventName` and then calls `listener`. */
    method Once(eventName: string, listener: Listener)
      modifies this
      ensures Events == old(Events)[eventName := OnceWrapper(eventName, listener)]
    {
      Events := Events[eventName := OnceWrapper(eventName, listener)];
    }

    /** Removes the listener bound to `eventName`, if there is one. */
    method Off(eventName: string)
      modifies this
      ensures Events == old(Events) - {eventName}
      ensures eventName !in Events
      ensures forall k :: k != eventName && k in old(Events) ==> k in Events && Events[k] == old(Events)[k]
    {
      Events := Events - {eventName};
    }

    /** Calls `listener` with `data`: a once wrapper deletes its name from this
        client's registry before it calls what it wraps. The result is `None`
        when the call reaches a nil function, which panics. */
    method Fire(listener: Listener, data: map<string, Value>, run: Behaviour, trace: Trace) returns (result: Option<Value>)
      modifies this, trace
      ensures Events == Invoke(listener, old(Events), data, run).events
      ensures result == Invoke(listener, old(Events), data, run).result
      ensures trace.effects == old(trace.effects) + if Callable(listener) then [Listened(this, Handler(listener), data)] else []
      decreases listener
    {
      match listener
      case Plain(h) =>
        trace.effects := trace.effects + [Listened(this, h, data)];
        result := Some(run(h, data));
      case OnceWrapper(e, inner) =>
        Events := Events - {e};
        result := Fire(inner, data, run, trace);
      case NilListener =>
        result := None;
    }

    /** Adds this client at the end of the room's members, then calls the
        room's joined callback. Joining twice lists the client twice. */
    method Join(room: Room, trace: Trace)
      modifies room, trace
      ensures room.clients == old(room.clients) + [this]
      ensures room.joinedHandler == old(room.joinedHandler) && room.leftHandler == old(room.leftHandler)
      ensures trace.effects == old(trace.effects) + HookCall(room.joinedHandler, this)
    {
      room.clients := room.clients + [this];
      if room.joinedHandler.Some? {
        trace.effects := trace.effects + [Hooked(room.joinedHandler.value, this)];
      }
    }

    /** Removes the first entry of this client from the room's members, then
        calls the room's left callback, also when the client was no member. */
    method Leave(room: Room, trace: Trace)
      modifies room, trace
      ensures room.clients == Lists.RemoveFirst(old(room.clients), this)
      ensures room.joinedHandler == old(room.joinedHandler) && room.leftHandler == old(room.leftHandler)
      ensures trace.effects == old(trace.effects) + HookCall(room.leftHandler, this)
    {
      var i := Lists.FirstIndex(room.clients, this);
      if i < |room.clients| {
        room.clients := room.clients[..i] + room.clients[i + 1..];
      }
      if room.leftHandler.Some? {
        trace.effects := trace.effects + [Hooked(room.leftHandler.value, this)];
      }
    }
  }

  class Room {
    const Id: string
    var clients: seq<Client>
    var joinedHandler: Option<HookId>
    var leftHandler: Option<HookId>

    /** The room `CreateRoom` allocates: named, empty, no callbacks. */
    constructor (name: string)
      ensures Id == name && clients == [] && joinedHandler == None && leftHandler == None
    {
      Id := name;
      clients := [];
      joinedHandler, leftHandler := None, None;
    }

    method OnClientJoined(listener: Option<HookId>)
      modifies this
      ensures joinedHandler == listener
      ensures leftHandler == old(leftHandler) && clients == old(clients)
    {
      joinedHandler := listener;
    }

    method OnClientLeft(listener: Option<HookId>)
      modifies this
      ensures leftHandler == listener
      ensures joinedHandler == old(joinedHandler) && clients == old(clients)
    {
      leftHandler := listener;
    }

    /** Sends the frame to every entry of the members, in order. */
    method Emit(eventName: string, data: Value, trace: Trace)
      modifies trace
      ensures trace.effects == old(trace.effects) + Sends(clients, Frame(eventName, data))
    {
      var i := 0;
      while i < |clients|
        invariant i <= |clients|
        invariant trace.effects == old(trace.effects) + Sends(clients[..i], Frame(eventName, data))
      {
        assert clients[..i + 1] == clients[..i] + [clients[i]];
        SendsSnoc(clients[..i], clients[i], Frame(eventName, data));
        clients[i].Emit(eventName, data, trace);
        i := i + 1;
      }
      assert clients[..i] == clients;
    }

    /** Sends the frame to every entry of the members that is not `client`, in order. */
    method EmitExcept(client: Client, eventName: string, data: Value, trace: Trace)
      modifies trace
      ensures trace.effects == old(trace.effects) + Sends(Lists.Except(clients, client), Frame(eventName, data))
    {
      var i := 0;
      ghost var sent: seq<Client> := [];
      while i < |clients|
        invariant i <= |clients|
        invariant sent == Lists.Except(clients[..i], client)
        invariant trace.effects == old(trace.effects) + Sends(sent, Frame(eventName, data))
      {
        var c := clients[i];
        Lists.ExceptPrefixStep(clients, i, client);
        if c != client {
          SendsSnoc(sent, c, Frame(eventName, data));
          c.Emit(eventName, data, trace);
          sent := sent + [c];
        }
        i := i + 1;
      }
      assert clients[..i] == clients;
    }
  }

  /** The ids of `rooms`, in order; `GetRoom` matches on these. */
  function RoomIds(rooms: seq<Room>): seq<string> {
    seq(|rooms|, i requires 0 <= i < |rooms| => rooms[i].Id)
  }

  /** After `CreateRoom(name)` a lookup of `name` finds the new room only when
      no earlier room has that name: with duplicates the earlier room wins. */
  lemma LookupAfterCreate(rooms: seq<Room>, room: Room, name: string)
    requires room.Id == name
    ensures Lists.IndexOf(RoomIds(rooms + [room]), name) ==
            if name in RoomIds(rooms) then Lists.IndexOf(RoomIds(rooms), name) else |rooms|
  {
    assert RoomIds(rooms + [room]) == RoomIds(rooms) + [name];
    Lists.IndexOfAppend(RoomIds(rooms), name, name);
  }

  class IgoServer {
    var Clients: seq<Client>
    var Rooms: seq<Room>
    const readBufferSize: int
    const writeBufferSize: int
    var preConnectHandler: Option<HookId>
    var connectedHandler: Option<HookId>
    var disconnectedHandler: Option<HookId>
    var errHandler: Option<HookId>

    /** `CreateIgoServer`: nil options mean buffers of 1024 bytes each. */
    constructor (options: Option<Options>)
      ensures options.None? ==> readBufferSize == 1024 && writeBufferSize == 1024
      ensures options.Some? ==> readBufferSize == options.value.ReadBufferSize && writeBufferSize == options.value.WriteBufferSize
      ensures Clients == [] && Rooms == []
      ensures preConnectHandler == None && connectedHandler == None && disconnectedHandler == None && errHandler == None
    {
      var opts := if options.None? then Options(1024, 1024) else options.value;
      Clients, Rooms := [], [];
      readBufferSize, writeBufferSize := opts.ReadBufferSize, opts.WriteBufferSize;
      preConnectHandler, connectedHandler, disconnectedHandler, errHandler := None, None, None, None;
    }

    method OnPreConnect(listener: Option<HookId>)
      modifies this
      ensures preConnectHandler == listener
      ensures Clients == old(Clients) && Rooms == old(Rooms)
      ensures connectedHandler == old(connectedHandler) && disconnectedHandler == old(disconnectedHandler) && errHandler == old(errHandler)
    {
      preConnectHandler := listener;
    }

    method OnConnected(listener: Option<HookId>)
      modifies this
      ensures connectedHandler == listener
      ensures Clients == old(Clients) && Rooms == old(Rooms)
      ensures preConnectHandler == old(preConnectHandler) && disconnectedHandler == old(disconnectedHandler) && errHandler == old(errHandler)
    {
      connectedHandler := listener;
    }

    method OnDisconnected(listener: Option<HookId>)
      modifies this
      ensures disconnectedHandler == listener
      ensures Clients == old(Clients) && Rooms == old(Rooms)
      ensures preConnectHandler == old(preConnectHandler) && connectedHandler == old(connectedHandler) && errHandler == old(errHandler)
    {
      disconnectedHandler := listener;
    }

    /** Sends the frame to every connected client, in the order of `Clients`. */
    method Emit(eventName: string, data: Value, trace: Trace)
      modifies trace
      ensures trace.effects == old(trace.effects) + Sends(Clients, Frame(eventName, data))
    {
      var i := 0;
      while i < |Clients|
        invariant i <= |Clients|
        invariant trace.effects == old(trace.effects) + Sends(Clients[..i], Frame(eventName, data))
      {
        assert Clients[..i + 1] == Clients[..i] + [Clients[i]];
        SendsSnoc(Clients[..i], Clients[i], Frame(eventName, data));
        Clients[i].Emit(eventName, data, trace);
        i := i + 1;
      }
      assert Clients[..i] == Clients;
    }

    /** Sends the frame to every connected client that is not `client`, in order. */
    method EmitExcept(client: Client, eventName: string, data: Value, trace: Trace)
      modifies trace
      ensures trace.effects == old(trace.effects) + Sends(Lists.Except(Clients, client), Frame(eventName, data))
    {
      var i := 0;
      ghost var sent: seq<Client> := [];
      while i < |Clients|
        invariant i <= |Clients|
        invariant sent == Lists.Except(Clients[..i], client)
        invariant trace.effects == old(trace.effects) + Sends(sent, Frame(eventName, data))
      {
        var c := Clients[i];
        Lists.ExceptPrefixStep(Clients, i, client);
        if c != client {
          SendsSnoc(sent, c, Frame(eventName, data));
          c.Emit(eventName, data, trace);
          sent := sent + [c];
        }
        i := i + 1;
      }
      assert Clients[..i] == Clients;
    }

    /** Appends a new empty room named `name`; duplicate names are allowed. */
    method CreateRoom(name: string) returns (room: Room)
      modifies this
      ensures fresh(room)
      ensures room.Id == name && room.clients == [] && room.joinedHandler == None && room.leftHandler == None
      ensures Rooms == old(Rooms) + [room]
      ensures Clients == old(Clients)
      ensures preConnectHandler == old(preConnectHandler) && connectedHandler == old(connectedHandler)
      ensures disconnectedHandler == old(disconnectedHandler) && errHandler == old(errHandler)
    {
      room := new Room(name);
      Rooms := Rooms + [room];
    }

    /** The first room whose id is `name`, or null when there is none. */
    method GetRoom(name: string) returns (room: Room?)
      ensures room == null <==> forall k :: 0 <= k < |Rooms| ==> Rooms[k].Id != name
      ensures room != null ==> room.Id == name && room in Rooms
      ensures var i := Lists.IndexOf(RoomIds(Rooms), name);
        room == if i < |Rooms| then Rooms[i] else null
    {
      var i := 0;
      while i < |Rooms|
        invariant i <= |Rooms|
        invariant forall k :: 0 <= k < i ==> Rooms[k].Id != name
      {
        if Rooms[i].Id == name {
          assert RoomIds(Rooms)[i] == name;
          assert forall k :: 0 <= k < i ==> RoomIds(Rooms)[k] != name;
          return Rooms[i];
        }
        i := i + 1;
      }
      assert forall k :: 0 <= k < |Rooms| ==> RoomIds(Rooms)[k] != name;
      return null;
    }

    /** Removes the first entry of `Rooms` that is `room`; no-op when absent. */
    method DeleteRoom(room: Room)
      modifies this
      ensures Rooms == Lists.RemoveFirst(old(Rooms), room)
      ensures Clients == old(Clients)
      ensures preConnectHandler == old(preConnectHandler) && connectedHandler == old(connectedHandler)
      ensures disconnectedHandler == old(disconnectedHandler) && errHandler == old(errHandler)
    {
      var i := Lists.FirstIndex(Rooms, room);
      if i < |Rooms| {
        Rooms := Rooms[..i] + Rooms[i + 1..];
      }
    }

    /** The handler `Handle` returns, for one incoming request: when the upgrade
        fails the error callback is told; otherwise the pre-connect callback
        runs, a new client with id `id` is appended to `Clients`, and the
        connected callback runs with it. */
    method Handle(upgraded: bool, id: ClientId, trace: Trace) returns (client: Client?)
      modifies this, trace
      ensures !upgraded ==> client == null && Clients == old(Clients)
      ensures !upgraded ==>
        trace.effects == old(trace.effects) + (if errHandler.Some? then [ErrorHooked(errHandler.value, UpgradeFailed)] else [])
      ensures upgraded ==> client != null && fresh(client)
      ensures upgraded ==> client.Id == id && client.Server == this && client.Events == map[]
      ensures upgraded ==> Clients == old(Clients) + [client]
      ensures upgraded ==>
        trace.effects == old(trace.effects) + (if preConnectHandler.Some? then [PreConnectHooked(preConnectHandler.value)] else [])
                                            + HookCall(connectedHandler, client)
      ensures Rooms == old(Rooms)
      ensures preConnectHandler == old(preConnectHandler) && connectedHandler == old(connectedHandler)
      ensures disconnectedHandler == old(disconnectedHandler) && errHandler == old(errHandler)
    {
      if !upgraded {
        if errHandler.Some? {
          trace.effects := trace.effects + [ErrorHooked(errHandler.value, UpgradeFailed)];
        }
        return null;
      }
      if preConnectHandler.Some? {
        trace.effects := trace.effects + [PreConnectHooked(preConnectHandler.value)];
      }
      client := new Client(this, id);
      Clients := Clients + [client];
      if connectedHandler.Some? {
        trace.effects := trace.effects + [Hooked(connectedHandler.value, client)];
      }
    }
  }

  /** What the trace records for a dispatched frame: the listener call, then
      the acknowledgement written back to the same client. */
  function DispatchEffects(client: Client, d: Dispatched): seq<Effect> {
    (if d.call.Some? then [Listened(client, d.call.value.handler, d.call.value.data)] else []) +
    (if d.reply.Some? then [Sent(client, d.reply.value)] else [])
  }

  /** `handleClientData`: checks the frame's fields, calls the listener bound
      to its event, and acknowledges when the frame carries a non-empty
      `ackId`. A failed type assertion is returned as the panic it causes,
      before anything has changed; so is the call of a nil listener, after
      the once wrappers around it deleted their names. */
  method HandleClientData(client: Client, m: map<string, Value>, run: Behaviour, trace: Trace) returns (panic: Option<Panic>)
    modifies client, trace
    ensures var d := Dispatch(old(client.Events), m, run);
      && (d.Err? ==> panic == Some(d.error.panic) && client.Events == d.error.events && trace.effects == old(trace.effects))
      && (d.Ok? ==> panic == None && client.Events == d.value.events && trace.effects == old(trace.effects) + DispatchEffects(client, d.value))
  {
    if !("event" in m && m["event"].Str?) {
      return Some(EventNotString);
    }
    var eventName := m["event"].s;
    if !("data" in m && m["data"].Object?) {
      return Some(DataNotObject);
    }
    var eventData := m["data"].fields;
    var ackId := "";
    if "ackId" in m && !m["ackId"].Null? {
      if !m["ackId"].Str? {
        return Some(AckIdNotString);
      }
      ackId := m["ackId"].s;
    }
    if eventName in client.Events {
      var listener := client.Events[eventName];
      var result := client.Fire(listener, eventData, run, trace);
      if result.None? {
        return Some(NilListenerCalled);
      }
      if ackId != "" {
        client.Emit(AckName(eventName, ackId), Object(map["result" := result.value]), trace);
      }
    }
    return None;
  }

  /** One result of reading from a client's socket. */
  datatype Read = ReadFailed | Undecodable | Payload(fields: map<string, Value>)

  /** How a read loop ends: it is still waiting for the next read, the
      connection was torn down, or a malformed frame, or a call of a nil
      listener, made the process panic. */
  datatype ReaderStatus = Waiting | Disconnected | Crashed(panic: Panic)

  datatype ReaderRun = ReaderRun(events: map<string, Listener>, effects: seq<Effect>, status: ReaderStatus)

  /** The callback slots of the hub the read loop consults. */
  datatype ReaderHooks = ReaderHooks(err: Option<HookId>, disconnected: Option<HookId>)

  /** One pass of the read loop: it either ends the loop or goes on with a
      registry and some effects. */
  datatype Step = Stop(last: ReaderRun) | Go(events: map<string, Listener>, effects: seq<Effect>)

  /** One read of `client`'s loop, with registry `events`: a read failure closes
      the socket, calls the disconnected callback and ends the loop; a decode
      failure is reported and skipped; a decoded frame is dispatched, and a
      malformed one, or one bound to a nil listener, panics. */
  function ReadStep(client: Client, events: map<string, Listener>, read: Read, run: Behaviour, hooks: ReaderHooks): Step {
    match read
    case ReadFailed => Stop(ReaderRun(events, [Closed(client)] + HookCall(hooks.disconnected, client), Disconnected))
    case Undecodable => Go(events, if hooks.err.Some? then [ErrorHooked(hooks.err.value, DecodeFailed)] else [])
    case Payload(m) =>
      match Dispatch(events, m, run)
      case Err(fault) => Stop(ReaderRun(fault.events, [], Crashed(fault.panic)))
      case Ok(d) => Go(d.events, DispatchEffects(client, d))
  }

  /** `r` preceded by the effects `done`. */
  function After(done: seq<Effect>, r: ReaderRun): ReaderRun {
    ReaderRun(r.events, done + r.effects, r.status)
  }

  /** The read loop of `client`, with registry `events`, over the socket reads `input`. */
  function ReadLoop(client: Client, events: map<string, Listener>, input: seq<Read>, run: Behaviour, hooks: ReaderHooks): ReaderRun
    decreases |input|
  {
    if input == [] then ReaderRun(events, [], Waiting)
    else
      match ReadStep(client, events, input[0], run, hooks)
      case Stop(r) => r
      case Go(events', effects) => After(effects, ReadLoop(client, events', input[1..], run, hooks))
  }

  lemma AfterAfter(a: seq<Effect>, b: seq<Effect>, r: ReaderRun)
    ensures After(a, After(b, r)) == After(a + b, r)
  {
    assert a + (b + r.effects) == (a + b) + r.effects;
  }

  /** The loop only ever removes listeners. It keeps waiting only when no
      read failed, and it disconnects only after a read failure. It crashes
      only on a frame whose fields fail their type assertions, or on a frame
      whose event the registry it started with binds to a nil listener. */
  lemma {:induction false} ReadLoopStatus(client: Client, events: map<string, Listener>, input: seq<Read>, run: Behaviour, hooks: ReaderHooks)
    ensures var r := ReadLoop(client, events, input, run, hooks);
      && r.events.Keys <= events.Keys
      && (forall e :: e in r.events ==> r.events[e] == events[e])
      && (r.status == Waiting ==> ReadFailed !in input)
      && (r.status == Disconnected ==> ReadFailed in input)
      && (r.status.Crashed? && r.status.panic != NilListenerCalled ==>
            exists k :: 0 <= k < |input| && input[k].Payload? && ParseFrame(input[k].fields).Err?)
      && (r.status == Crashed(NilListenerCalled) ==>
            exists k :: 0 <= k < |input| && input[k].Payload? && CallsNil(events, input[k].fields))
    decreases |input|
  {
    if input != [] {
      assert input == [input[0]] + input[1..];
      var st := ReadStep(client, events, input[0], run, hooks);
      if st.Go? {
        ReadLoopStatus(client, st.events, input[1..], run, hooks);
        var r := ReadLoop(client, st.events, input[1..], run, hooks);
        if r.status.Crashed? && r.status.panic != NilListenerCalled {
          var k :| 0 <= k < |input[1..]| && input[1..][k].Payload? && ParseFrame(input[1..][k].fields).Err?;
          assert input[k + 1] == input[1..][k];
        }
        if r.status == Crashed(NilListenerCalled) {
          var k :| 0 <= k < |input[1..]| && input[1..][k].Payload? && CallsNil(st.events, input[1..][k].fields);
          assert input[k + 1] == input[1..][k];
          assert CallsNil(events, input[k + 1].fields);
        }
      }
    }
  }

  /** Once the loop has stopped, later reads are never consumed; while it is
      still waiting, further reads continue from the registry it reached. */
  lemma {:induction false} ReadLoopAppend(client: Client, events: map<string, Listener>, input: seq<Read>, more: seq<Read>, run: Behaviour, hooks: ReaderHooks)
    ensures var r := ReadLoop(client, events, input, run, hooks);
      ReadLoop(client, events, input + more, run, hooks) ==
        if r.status == Waiting then After(r.effects, ReadLoop(client, r.events, more, run, hooks)) else r
    decreases |input|
  {
    if input == [] {
      assert input + more == more;
      assert [] + ReadLoop(client, events, more, run, hooks).effects == ReadLoop(client, events, more, run, hooks).effects;
    } else {
      assert (input + more)[0] == input[0];
      assert (input + more)[1..] == input[1..] + more;
      var st := ReadStep(client, events, input[0], run, hooks);
      if st.Go? {
        ReadLoopAppend(client, st.events, input[1..], more, run, hooks);
        var r := ReadLoop(client, st.events, input[1..], run, hooks);
        if r.status == Waiting {
          AfterAfter(st.effects, r.effects, ReadLoop(client, r.events, more, run, hooks));
        }
      }
    }
  }

  /** With no error callback set, an undecodable message anywhere in the
      stream leaves the loop's registry, effects and status as if it had not
      been read. */
  lemma {:induction false} UndecodableSkipped(client: Client, events: map<string, Listener>, before: seq<Read>, after: seq<Read>, run: Behaviour, hooks: ReaderHooks)
    requires hooks.err == None
    ensures ReadLoop(client, events, before + [Undecodable] + after, run, hooks) == ReadLoop(client, events, before + after, run, hooks)
    decreases |before|
  {
    var withIt, without := before + [Undecodable] + after, before + after;
    if before == [] {
      assert withIt[0] == Undecodable && withIt[1..] == after && without == after;
      var r := ReadLoop(client, events, after, run, hooks);
      assert [] + r.effects == r.effects;
    } else {
      assert withIt[0] == before[0] && without[0] == before[0];
      assert withIt[1..] == before[1..] + [Undecodable] + after;
      assert without[1..] == before[1..] + after;
      var st := ReadStep(client, events, before[0], run, hooks);
      if st.Go? {
        UndecodableSkipped(client, st.events, before[1..], after, run, hooks);
      }
    }
  }

  /** One pass of `wsReader`'s loop over the read `read`: returns the status
      the loop ends with, or `None` when it reads on. A read failure also
      removes the first entry of the client from the hub's `Clients`. */
  method ReadOnce(client: Client, read: Read, run: Behaviour, trace: Trace) returns (stop: Option<ReaderStatus>)
    modifies client, client.Server, trace
    ensures var st := ReadStep(client, old(client.Events), read,
                               run, ReaderHooks(old(client.Server.errHandler), old(client.Server.disconnectedHandler)));
      && (stop.None? <==> st.Go?)
      && (st.Go? ==> client.Events == st.events && trace.effects == old(trace.effects) + st.effects)
      && (st.Stop? ==> stop.value == st.last.status && client.Events == st.last.events && trace.effects == old(trace.effects) + st.last.effects)
    ensures stop == Some(Disconnected) <==> read.ReadFailed?
    ensures client.Server.Clients ==
      if stop == Some(Disconnected) then Lists.RemoveFirst(old(client.Server.Clients), client) else old(client.Server.Clients)
    ensures client.Server.Rooms == old(client.Server.Rooms)
    ensures client.Server.preConnectHandler == old(client.Server.preConnectHandler)
    ensures client.Server.connectedHandler == old(client.Server.connectedHandler)
    ensures client.Server.disconnectedHandler == old(client.Server.disconnectedHandler)
    ensures client.Server.errHandler == old(client.Server.errHandler)
  {
    var server := client.Server;
    match read {
      case ReadFailed =>
        var k := Lists.FirstIndex(server.Clients, client);
        if k < |server.Clients| {
          server.Clients := server.Clients[..k] + server.Clients[k + 1..];
        }
        client.Close(trace);
        if server.disconnectedHandler.Some? {
          trace.effects := trace.effects + [Hooked(server.disconnectedHandler.value, client)];
        }
        return Some(Disconnected);
      case Undecodable =>
        if server.errHandler.Some? {
          trace.effects := trace.effects + [ErrorHooked(server.errHandler.value, DecodeFailed)];
        }
        return None;
      case Payload(m) =>
        var panic := HandleClientData(client, m, run, trace);
        if panic.Some? {
          return Some(Crashed(panic.value));
        }
        return None;
    }
  }

  /** `wsReader`: reads `input` from the client's socket in order. A read
      failure removes the first entry of the client from the hub's `Clients`
      and ends the loop; nothing else on the hub changes. */
  method WsReader(client: Client, input: seq<Read>, run: Behaviour, trace: Trace) returns (status: ReaderStatus)
    modifies client, client.Server, trace
    ensures var r := ReadLoop(client, old(client.Events), input, run,
                              ReaderHooks(old(client.Server.errHandler), old(client.Server.disconnectedHandler)));
      status == r.status && client.Events == r.events && trace.effects == old(trace.effects) + r.effects
    ensures client.Server.Clients ==
      if status == Disconnected then Lists.RemoveFirst(old(client.Server.Clients), client) else old(client.Server.Clients)
    ensures client.Server.Rooms == old(client.Server.Rooms)
    ensures client.Server.preConnectHandler == old(client.Server.preConnectHandler)
    ensures client.Server.connectedHandler == old(client.Server.connectedHandler)
    ensures client.Server.disconnectedHandler == old(client.Server.disconnectedHandler)
    ensures client.Server.errHandler == old(client.Server.errHandler)
  {
    var server := client.Server;
    var hooks := ReaderHooks(server.errHandler, server.disconnectedHandler);
    ghost var whole := ReadLoop(client, client.Events, input, run, hooks);
    ghost var done: seq<Effect> := [];
    var i := 0;
    while i < |input|
      invariant i <= |input|
      invariant server.Clients == old(server.Clients) && server.Rooms == old(server.Rooms)
      invariant server.preConnectHandler == old(server.preConnectHandler)
      invariant server.connectedHandler == old(server.connectedHandler)
      invariant hooks == ReaderHooks(server.errHandler, server.disconnectedHandler)
      invariant hooks == ReaderHooks(old(server.errHandler), old(server.disconnectedHandler))
      invariant trace.effects == old(trace.effects) + done
      invariant whole == After(done, ReadLoop(client, client.Events, input[i..], run, hooks))
    {
      ghost var st := ReadStep(client, client.Events, input[i], run, hooks);
      assert input[i..][0] == input[i] && input[i..][1..] == input[i + 1..];
      ghost var rest := ReadLoop(client, client.Events, input[i..], run, hooks);
      assert st.Stop? ==> rest == st.last;
      assert st.Go? ==> rest == After(st.effects, ReadLoop(client, st.events, input[i + 1..], run, hooks));
      var stop := ReadOnce(client, input[i], run, trace);
      if stop.Some? {
        assert trace.effects == old(trace.effects) + (done + st.last.effects);
        return stop.value;
      }
      AfterAfter(done, st.effects, ReadLoop(client, client.Events, input[i + 1..], run, hooks));
      done := done + st.effects;
      i := i + 1;
    }
    assert input[i..] == [];
    return Waiting;
  }
}
