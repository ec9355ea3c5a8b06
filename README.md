# socket-igo hub, client registry and rooms in Dafny

This project models the server half of the socket-igo event bus (Go package
`socketigo`). It covers the in-memory bookkeeping and frame dispatch of an
`IgoServer` hub, its `Client`s and its `Room`s:

- the hub's ordered `Clients` and `Rooms` lists: creating, looking up and
  deleting rooms, appending a client when a connection is accepted, and removing
  it when its read loop sees a read error;
- each client's event registry (`On`, `Once`, `Off`) and `handleClientData`,
  which checks a decoded `{event, data, ackId?}` frame, calls the bound listener
  and writes back the `event@ack:id` acknowledgement `{"result": r}`;
- the per-connection read loop `wsReader`, over a finite sequence of socket reads;
- room membership (`Join`, `Leave`), the joined/left callback slots, and the
  broadcasts `Emit` / `EmitExcept` of the hub and of a room.

Layout:

- `lists.dfy` (module `Lists`) holds the three list operations the Go code
  writes out inline:
  - the first-match scan;
  - the `append(s[:i], s[i+1:]...)` splice that removes the first occurrence;
  - the `c != client` filter of the broadcasts.
- `protocol.dfy` (module `Protocol`) holds decoded JSON values, frames,
  listeners, the field checks of `handleClientData` and the pure dispatch
  function `Dispatch`.
- `socketigo.dfy` (module `SocketIgo`) holds the classes `IgoServer`, `Client`
  and `Room`, whose methods update their fields in place. It also holds the
  module-level methods `HandleClientData`, `ReadOnce` and `WsReader`, and the
  specification function `ReadLoop` of the read loop.

Modelling choices:

- Go pointers are Dafny object references, so `c != client` and `r == room` are
  reference comparisons, as in Go.
- The network is a `Trace` object. The model appends every frame written to a
  socket, every socket close and every user callback call to its `effects`
  sequence, in order.
- User callbacks (pre-connect, connected, disconnected, error, joined, left) are
  opaque. They appear as `Option<HookId>` slots, where `None` is Go's nil.
- A listener is `Plain(handler)`, the wrapper `Once` builds
  (`OnceWrapper(eventName, inner)`), or `NilListener`. `On(e, nil)` stores a
  nil function, and `Once(e, nil)` wraps one. Calling it panics, after the once
  wrappers around it have deleted their names.
- What a user listener returns is given by a `Behaviour` parameter.
- A failed type assertion in `handleClientData` is a Go panic, and so is the
  call of a nil listener. The model turns each into an explicit `Panic` outcome
  (`EventNotString`, `DataNotObject`, `AckIdNotString`, `NilListenerCalled`).
  The outcome carries the registry as it stood at that moment and ends the read
  loop in status `Crashed`.
- A JSON `null` or a missing key both read as nil in Go, so an `ackId` that is
  `null` counts as absent.
- A JSON text `null` decodes into a nil map without error. It is a `Payload`
  with no fields, so it panics with `EventNotString`.

Where the intended design of the bus and the Go code differ, the model
follows the code:

- A client whose read loop ends is removed from the hub's `Clients` only. It
  stays in every room it joined, and the model's `WsReader` leaves rooms
  untouched.
- A frame with a missing or ill-typed `event`, `data` or `ackId` panics. It is
  not reported to the error callback.
- `Leave` calls the left callback even when the client was not a member.
- No `#handshake` frame is sent to a newly accepted connection.
- `wsReader` reaches the hub through `client.server`, but the
  field `Client` declares is `Server` (client.go:13), so the package as written
  does not compile. The model reads every `client.server` as `client.Server`.
- The hub has no setter for its error callback. `errHandler` is `None` from
  construction on, and the model keeps it as a field that no operation changes.

## Model

| member | source | states |
|---|---|---|
| Lists.IndexOf | server.go:90-97 | the index of the first entry equal to `x`, or the length when none is: every earlier entry differs |
| Lists.FirstIndex | server.go:99-106 | the scan loop stops at the first entry equal to `x` and agrees with `IndexOf` |
| Lists.RemoveFirstSplices | server.go:99-106 | the splice removes exactly one occurrence when there is one: length down by one, multiset minus `{x}`, entries before it in place, later ones shifted up; no change when absent |
| Lists.ExceptCounts | room.go:24-30 | the filter drops every entry equal to `x`, keeps every other value as often as it occurs, adds nothing, and is the identity when `x` is absent |
| Lists.ExceptAppend | room.go:24-30 | the filter distributes over concatenation, so it keeps the order of the list |
| Lists.RemoveSoleOccurrence | client.go:82-88 | when a client is listed at most once, removing its first entry removes it altogether (the same as the filter) |
| Lists.RemoveAppended | client.go:74-88 | appending then removing the same reference restores the list's multiset, and the list itself when it was absent (join then leave, accept then disconnect) |
| Protocol.Invoke | client.go:63-68 | running a listener returns exactly its user function's result, or no result when it ends in a nil function; each once wrapper deletes its own name (also before a nil call) and no other key changes |
| Protocol.ParseFrame | client.go:26-33 | the frame is accepted iff `event` is a string, `data` an object and a non-nil `ackId` a string; each failing assertion gives its own panic; a nil `ackId` reads as "" |
| Protocol.AckName | client.go:43 | the reply name is the event, then `@ack:`, then the id |
| Protocol.AckNameInjective | client.go:43 | for one event, distinct correlation ids give distinct reply names |
| Protocol.AckNameCollision | client.go:43 | across events the reply name is ambiguous: `a@ack:b` with id `c` and `a` with id `b@ack:c` share it |
| Protocol.Dispatch | client.go:26-46 | a malformed frame panics before anything changes; an unbound event calls nothing and sends nothing; a bound one removes exactly the names of its once wrappers, keeps every other binding as it was, and panics iff its listener is nil, else calls it once and replies iff `ackId` is non-empty, with `{"result": r}` under the ack name |
| Protocol.ParseEncoded | client.go:26-33 | a frame written with `event`, `data` and (when non-empty) `ackId` is read back as the same frame |
| Protocol.ParseEmitted | client.go:52-57 | a frame a client emits with object data is itself a valid inbound frame without `ackId`, so an acknowledgement never asks for another one |
| Protocol.OnceFiresOnce | client.go:63-68 | a `Once` listener runs (or, wrapping nil, panics) for the first matching frame only: the same frame dispatched again finds no listener |
| Protocol.PlainFiresEveryTime | client.go:59-61 | a listener bound with `On` leaves the registry unchanged, so it runs for every matching frame |
| Protocol.NilListenerPanics | client.go:35-36 | a frame whose event is bound to a nil listener panics on every arrival and leaves the registry as it was |
| Protocol.OffSilences | client.go:70-72 | after `Off` of a frame's event, dispatching that frame calls nothing, replies nothing and changes nothing |
| SocketIgo.SendsReachEachEntry | room.go:18-22 | a broadcast over a list writes to each client once per entry of it in the list: twice when listed twice, never when not listed or when the list is empty |
| SocketIgo.SendsExceptReach | room.go:24-30 | a broadcast skipping `c` never writes to `c`, even when listed several times, and writes to every other client once per entry |
| SocketIgo.SendsExceptNonMember | room.go:24-30 | skipping a client that is not listed sends exactly what the plain broadcast sends |
| SocketIgo.Client.constructor | client.go:17-24 | a new client belongs to its hub, has the given id and an empty registry |
| SocketIgo.Client.Emit | client.go:52-57 | one frame `{event, data}` is written to this client and nothing else happens |
| SocketIgo.Client.Close | client.go:48-50 | the client's socket is closed and nothing else happens |
| SocketIgo.Client.On | client.go:59-61 | the registry binds `eventName` to `listener`; every other key keeps its binding |
| SocketIgo.Client.Once | client.go:63-68 | the registry binds `eventName` to a wrapper that captures that same name |
| SocketIgo.Client.Off | client.go:70-72 | `eventName` is unbound, other keys keep their bindings, and it is a no-op when unbound |
| SocketIgo.Client.Fire | client.go:35-36 | calling a listener updates the registry as `Invoke` does, returns the user function's result (none for a nil function) and records one listener call exactly when a user function runs |
| SocketIgo.Client.Join | client.go:74-80 | the client is appended at the end of the members (duplicates allowed), then the joined callback is called when set |
| SocketIgo.Client.Leave | client.go:82-93 | the first entry of the client is removed, the order of the rest kept, then the left callback is called when set, for members and non-members alike |
| SocketIgo.Room.constructor | server.go:82-85 | a new room has the given id, no members and no callbacks |
| SocketIgo.Room.OnClientJoined | room.go:10-12 | the joined slot is replaced; members and the left slot are unchanged |
| SocketIgo.Room.OnClientLeft | room.go:14-16 | the left slot is replaced; members and the joined slot are unchanged |
| SocketIgo.Room.Emit | room.go:18-22 | exactly one frame per membership entry, in list order; the members and callbacks are not changed |
| SocketIgo.Room.EmitExcept | room.go:24-30 | exactly one frame per membership entry not reference-equal to `client`, in list order |
| SocketIgo.LookupAfterCreate | server.go:81-97 | after creating a room named `name`, lookup finds it only when no earlier room has that name: the earlier room wins |
| SocketIgo.IgoServer.constructor | server.go:33-53 | nil options give read and write buffers of 1024; the client and room lists start empty and every callback slot is nil |
| SocketIgo.IgoServer.OnPreConnect | server.go:55-57 | the pre-connect slot is replaced; nothing else changes |
| SocketIgo.IgoServer.OnConnected | server.go:59-61 | the connected slot is replaced; nothing else changes |
| SocketIgo.IgoServer.OnDisconnected | server.go:63-65 | the disconnected slot is replaced; nothing else changes |
| SocketIgo.IgoServer.Emit | server.go:67-71 | exactly one frame per entry of `Clients`, in list order |
| SocketIgo.IgoServer.EmitExcept | server.go:73-79 | exactly one frame per entry of `Clients` not reference-equal to `client`, in list order |
| SocketIgo.IgoServer.CreateRoom | server.go:81-88 | one fresh room with the given id and no members is appended at the end of `Rooms`; earlier rooms, `Clients` and the callback slots are unchanged |
| SocketIgo.IgoServer.GetRoom | server.go:90-97 | the first room whose id is `name`, or null exactly when no room has that id |
| SocketIgo.IgoServer.DeleteRoom | server.go:99-106 | only the first entry reference-equal to `room` is removed, order kept; a no-op when absent; `Clients` and the callback slots are unchanged |
| SocketIgo.IgoServer.Handle | server.go:108-132 | a failed upgrade only calls the error callback; an accepted one calls the pre-connect callback, appends one fresh client with an empty registry at the end of `Clients`, and calls the connected callback with it |
| SocketIgo.HandleClientData | client.go:26-46 | the registry and the trace change exactly as `Dispatch` says: on a panic nothing is sent and the registry is the one the panic left, else the listener call is followed by the acknowledgement |
| SocketIgo.ReadOnce | server.go:139-166 | one read: a read error removes the client's first entry from `Clients`, closes the socket, calls the disconnected callback and stops; a decode error is reported and the loop goes on; a payload is dispatched, and a malformed one stops the loop |
| SocketIgo.WsReader | server.go:137-168 | the loop's status, final registry and trace are those of `ReadLoop`; `Clients` loses the client's first entry exactly when it disconnects; `Rooms` and the callback slots never change |
| SocketIgo.ReadLoopStatus | server.go:137-168 | the loop only removes listeners; it waits only if no read failed, disconnects only after a read failure, and crashes only on a frame that fails its type assertions or whose event the starting registry binds to a nil listener |
| SocketIgo.ReadLoopAppend | server.go:138-154 | once the loop has disconnected or crashed, later reads are never consumed; while waiting, later reads continue from the registry reached |
| SocketIgo.UndecodableSkipped | server.go:158-164 | with no error callback, an undecodable message anywhere in the stream changes nothing: the loop continues as if it had not been read |

## Left out

- Transport I/O is not modelled: the HTTP upgrade, `CheckOrigin` and gorilla websocket reads and writes. A read is one of `ReadFailed`, `Undecodable` or `Payload(fields)`, and the upgrade outcome is a boolean parameter of `Handle`.
- The JSON codec (goccy/go-json and `WriteJSON`) is not modelled. Values are already decoded into `Value`, and JSON numbers are `real`.
- The error returned by `Client.Emit` and `Client.Close` is not modelled. A write failure leaves no trace, and the broadcasts never look at it.
- The per-connection goroutine and the unsynchronised sharing of `Clients`, `Rooms` and room membership across goroutines are not modelled. Each operation is one atomic sequential step, and `wsReader` runs over a finite sequence of reads.
- UUID generation is not modelled: the caller supplies the client id.
- The bodies of user callbacks and listeners are not modelled. A callback call is recorded in the trace. A listener's result is `run(handler, data)`, so it depends only on the listener and the frame's data, and a listener cannot itself change the hub, rooms or registry.
- `Once` installs a closure around any `EventListener`. The model wraps a `Listener`, and its innermost user function is identified by a `HandlerId`.
- A nil `*Room` passed to `DeleteRoom`, `Join` or `Leave`, and a nil `*Client` passed to `EmitExcept`, are not modelled. In the model, `Join` and `Leave` take a non-null room, and `DeleteRoom` and `EmitExcept` take non-null references.
- `Client.Id`, `Client.Server` and `Room.Id` are exported fields in Go that user code may reassign. For example, renaming a room changes what `GetRoom` finds. The model makes them constants set at creation, so it does not cover such reassignments.
- The pre-connect callback receives the raw connection. The model records only that it was called.
- The client-side reconnecting bus and the handshake are not modelled. None of that code is part of this model.
