# Connection registry and event router of the islandHouse relay

This project models, in Dafny, the realtime relay of the islandHouse
application: the Socket.IO server in `server.js` that keeps the in-memory
registry `connectedUsers` and routes events between users and admins, and
the client-side transport policy and lazy socket singleton in
`lib/socket.ts`.

What is modelled:

- **Registry** (`registry.dfy`, module `Registry`): an entry is
  `ConnectedUser(socketId, userId, role)`. `Registered`, `Disconnected` and
  `CleanedUp` compute the registry after `register`, the `disconnect` handler
  and `cleanupDisconnectedUsers`. `FindAdmin` and `FindUser` are the two
  `find` lookups. The lemmas prove these facts. User ids stay unique. The
  last `register` of a user wins. `register` of a primitive id is idempotent.
  The disconnect handler removes exactly the entries of the closed socket
  and of sockets that are no longer connected. The sweep keeps exactly the
  connected entries, in order, and running it twice is running it once.
- **Routing** (`relay.dfy`, module `Relay`): `ToAdmin`, `ToUser` and `Echo`
  give the emissions of the five directed handlers and of the sixteen request
  handlers. `Step` gives the effect of one inbound event, chosen by its name.
- **Server object** (`server.dfy`, class `Server.RelayServer`): holds the
  `connectedUsers` and `outbox` fields. Each handler is a method, and each
  method's postcondition ties the new state to the functions above.
  `Valid()` states that user ids are unique.
- **Event names** (`jsstring.dfy`, `eventnames.dfy`): JavaScript's
  first-occurrence `String.prototype.replace` is `JsString.ReplaceFirst`.
  `EventNames.ResponseEvent` is the chain of four replaces at
  server.js:226-229 that names the echo of a request event. The outbound
  names are proved for all sixteen request events.
- **Client** (`transports.dfy`, `client.dfy`): the `connect_error` and
  `reconnect_attempt` policy on `socket.io.opts.transports`, and the lazy
  `useSocket` singleton. `Transports.AfterConnectError` is the
  `connect_error` rule at lib/socket.ts:45-52. It treats a missing list as
  empty, and it gives `['polling']` when the list holds `'websocket'` and
  `['websocket']` otherwise.

Modelling choices:

- Payloads are JSON values (`Json.Value`), with `Undefined` for an absent
  property.
- JavaScript `===` is `Json.StrictEq`. It is value equality on primitives.
  It is never true for arrays or objects, because each decoded payload
  object is a new reference.
- A socket is identified by its id. Whether a socket is connected is
  transport state. The operations that read it take it as the parameter
  `live`, the set of ids of connected sockets.
- Emissions are recorded in order in `outbox`, as
  `Emission(target socket id, event name, payload)`.

Behaviour of server.js worth knowing:

- `selectIds` is echoed as `selectMultiMultiIds`, not `selectMultiIds`. The
  `.replace('Id', 'MultiId')` step finds the `Id` that
  `.replace('Ids', 'MultiIds')` has just inserted. The same doubling
  happens for every `select…Ids` name.
- The handlers never check that the sender is registered. An event from an
  unregistered connection is routed like any other.
- "The" admin is the first admin entry in list order. After a
  re-registration this need not be the first admin that registered,
  because re-registering moves an entry to the end of the list.
- The admin-to-user handlers read `data.receiveuserId` inside their `try`.
  A null or undefined payload therefore produces the acknowledgment
  `{success: false, error: 'Internal server error'}`. `register`,
  `userRegister` and `userVerify` destructure their payload outside any
  `try`. A null or undefined payload makes the exception escape before they
  change or emit anything. The model reports this as `Effect.escaped`.

## Model

| member | source | states |
|---|---|---|
| Seqs.Filter | server.js:15 | every element of a filter's result comes from the input and passes the test, and every input element that passes the test is kept |
| Seqs.FilterConcat | server.js:75 | filtering distributes over concatenation, so the kept elements keep their relative order |
| Seqs.First | server.js:90-92 | `find` returns an element of the array that passes the test, and returns nothing exactly when no element passes |
| Seqs.FirstIsEarliest | server.js:136-138 | `find` returns the earliest element, in array order, that passes the test |
| JsString.IndexFrom | server.js:226 | `indexOf` from a start position returns an occurrence with no earlier occurrence after the start, or no result when there is none |
| JsString.ReplaceFirst | server.js:226-229 | `replace` with a string pattern replaces only the first occurrence, and leaves the string unchanged when the pattern does not occur |
| JsString.ReplaceByItself | server.js:227 | `.replace('select', 'select')` leaves every name unchanged |
| EventNames.RequestName | server.js:226-229 | a `…Request` name is echoed as `…Recieve` |
| EventNames.IdsName | server.js:228-229 | a `select…Ids` name is echoed as its prefix followed by `MultiMultiIds` |
| EventNames.ResponseEventAt | server.js:204-229 | each of the sixteen request events is echoed under the name at the same position of `ResponseEvents` |
| EventNames.ResponseEventTable | server.js:204-229 | the table holds for all sixteen request events at once |
| Registry.FilterKeepsUnique | server.js:15 | removing entries from a registry whose user ids are unique keeps them unique |
| Registry.RegisterKeepsUnique | server.js:73-86 | `register` keeps user ids unique |
| Registry.DisconnectKeepsUnique | server.js:243-249 | the disconnect handler keeps user ids unique |
| Registry.CleanupKeepsUnique | server.js:14-16 | the cleanup sweep keeps user ids unique |
| Registry.RegisterReplacesUser | server.js:73-86 | after `register` of a primitive id, the new entry is last and is the only entry of that user, and the entries of all other users are kept in order, including those on the same socket |
| Registry.FindUserAfterRegister | server.js:73-86 | after `register`, a lookup of the registered id finds the new entry, and a lookup of any other id finds what it found before |
| Registry.RegisterIdempotent | server.js:73-86 | registering the same primitive id with the same socket and role twice in a row is the same as registering it once |
| Registry.MostRecentRegistrationWins | server.js:73-86 | after any series of registrations, a lookup of a user finds the entry of that user's most recent registration, or what it found before the series |
| Registry.FindAdminIsFirstAdmin | server.js:90-92 | the admin found is the first entry in registry order whose role is `'admin'` |
| Registry.FindUserIsTheEntry | server.js:136-138 | in a registry with unique ids, the lookup finds the entry whose id strictly equals the target |
| Registry.DisconnectRemovesExactly | server.js:243-249 | the disconnect handler removes every entry of the closed socket and every entry of a socket that is not connected, keeps everything else, and keeps the order |
| Registry.CleanupKeepsConnected | server.js:14-16 | the sweep keeps exactly the entries whose socket is connected |
| Registry.CleanupKeepsOrder | server.js:15 | the sweep keeps the original order of the entries |
| Registry.CleanupIdempotent | server.js:14-16 | running the sweep twice is the same as running it once |
| Registry.CleanupAfterDisconnect | server.js:248 | a further sweep right after a disconnect changes nothing while the same sockets stay connected |
| Relay.ToAdminFailsIffNoAdmin | server.js:88-109 | the sender gets `{success: false, error: 'No admin available'}`, and nothing else is emitted, exactly when no entry has the admin role |
| Relay.ToAdminReachesFirstAdmin | server.js:111-132 | with an admin registered, the first admin gets `receiveMessage` with the message, then the sender gets `{success: true}` |
| Relay.ToUserReachesRecipient | server.js:134-155 | the entry whose id is `data.receiveuserId` gets `receiveMessage` with `data.message`, then the sender gets `{success: true}` |
| Relay.ToUserFailsIffNotFound | server.js:157-178 | the sender gets `{success: false, error: 'User not found'}`, and nothing is forwarded, exactly when no entry's id strictly equals `data.receiveuserId` |
| Relay.StepKeepsUnique | server.js:73-249 | every handler keeps the user ids of the registry unique |
| Relay.DirectedEventsKeepRegistry | server.js:88-201 | the five directed handlers never change the registry, and with an object payload no exception escapes them |
| Relay.RequestEventEchoes | server.js:223-241 | a request event leaves the registry alone and emits, to the sender only, the unchanged payload under the table's name and then `<event>Ack` with `{success: true}` |
| Server.RelayServer.constructor | server.js:11 | the registry and the outbox start empty |
| Server.RelayServer.Emit | server.js:94 | an emission is appended to the outbox |
| Server.RelayServer.Register | server.js:73-86 | the registry becomes `Registered` of the old one, and user ids stay unique |
| Server.RelayServer.RouteToAdmin | server.js:88-132 | the registry is unchanged and the outbox grows by `ToAdmin` |
| Server.RelayServer.RouteToUser | server.js:134-201 | the registry is unchanged and the outbox grows by `ToUser` |
| Server.RelayServer.EchoRequest | server.js:223-241 | the registry is unchanged and the outbox grows by the echo and the ack |
| Server.RelayServer.CleanupDisconnectedUsers | server.js:14-16 | the registry becomes `CleanedUp` of the old one, and user ids stay unique |
| Server.RelayServer.Disconnect | server.js:243-249 | the registry becomes `Disconnected` of the old one, and user ids stay unique |
| Server.RelayServer.Handle | server.js:65-270 | the new registry, the new emissions and any escaping exception are those that `Step` gives for the event |
| Server.ReRegistrationScenario | server.js:73-86 | after `u1` registers from `s1` and then from `s2`, only `s2` is registered, and an admin reply to `u1` reaches `s2` |
| Server.UserVerifyScenario | server.js:111-132 | after an admin registers, a `userVerify` reaches the admin's socket and the sender is acknowledged |
| Server.RegisterRequestScenario | server.js:223-232 | with nothing registered, `registerRequest` is echoed as `registerRecieve` and then acknowledged as `registerRequestAck` |
| Transports.MissingListSwitchesToWebSocket | lib/socket.ts:46-51 | an unset or empty transports list becomes `['websocket']` on `connect_error` |
| Transports.ConnectErrorToggles | server.js:264-268 | from either single-transport list, `connect_error` switches to the other, so two errors in a row restore the list |
| Transports.ConnectErrorsAlternate | lib/socket.ts:47-51 | repeated errors from the initial list give `['polling']`, `['websocket']`, `['polling']`, … strictly alternating |
| Transports.RunIsReachable | lib/socket.ts:24-76 | after any series of `connect_error` and `reconnect_attempt` events, the list is `['polling','websocket']`, `['polling']` or `['websocket']` |
| Transports.ReconnectAttemptResets | lib/socket.ts:70-78 | `reconnect_attempt` restores `['polling','websocket']` whatever came before |
| Client.ClientSocket.constructor | lib/socket.ts:22-32 | the client starts with `['polling','websocket']` |
| Client.ClientSocket.OnConnectError | lib/socket.ts:41-53 | the list becomes `AfterConnectError` of the old one and stays reachable |
| Client.ClientSocket.OnReconnectAttempt | lib/socket.ts:70-78 | the list becomes `['polling','websocket']` |
| Client.ClientSocket.On | lib/socket.ts:41-78 | either handler moves the list by `Next` and keeps it reachable |
| Client.SocketModule.constructor | lib/socket.ts:13 | the module starts with no socket |
| Client.SocketModule.UseSocket | lib/socket.ts:15-106 | the first call creates a client with both transports, and every later call returns that same client |
| Client.UseSocketTwice | lib/socket.ts:105 | two calls of `useSocket` return the same instance |

## Left out

- HTTP server creation, CORS headers, the Socket.IO server and client options other than `transports`, and the auth middleware: library configuration. Both branches of the auth middleware call `next()`.
- All `console` logging. This also covers the handlers that only log: `upgrade`, `connect`, `reconnect`, `reconnect_error`, `reconnect_failed`, the client's `error` and `messageSent`.
- The `setInterval` schedule of the sweep and its interval: timers. The sweep is a callable operation.
- The client's delayed reconnect `setTimeout` on `disconnect`, and the reconnect backoff: timers, and code inside socket.io-client.
- `socket.connect()` in the server's `error` handler: transport I/O. The handler has no modelled effect.
- `connectedAt`: a clock read, informational only.
- The `catch` branches of the user-to-admin handlers and of the request handlers: nothing in their `try` bodies can throw in the model. Where the code can throw on a null or undefined payload, the model covers it, as described above.
- What Node.js does after an exception escapes a handler: it happens outside the code shown.
- The server-side `connect_error` and `error` handlers are modelled as changing nothing and throwing nothing. They read `socket.io.opts` at server.js:264 and call `socket.connect()` at server.js:256. Neither member is defined in the code shown, so the model assumes these calls do not throw.
- The server socket's own `socket.io.opts` state on `connect_error`: only the toggle policy it shares with the client is modelled, as `AfterConnectError`.
- The `socket?.io?.opts` and `socket?.io` guards in lib/socket.ts: they always hold for a created client.
- The server URL computed from the environment and `window` in `useSocket`: environment I/O.
- Only an object's own properties are read, and duplicate keys are resolved by the decoder.
- Floating-point numbers and `NaN` in payloads: numbers are integers.
- Event-loop scheduling: each handler is one atomic step.
- Only the first argument of an event is used as its payload.
- app/api/withdrawal/route.ts, lib/dbConnect.ts, types/global.d.ts and app/(auth)/(signin)/page.tsx are not part of this model. They are a database CRUD endpoint, connection caching for a foreign library, type declarations and a page.
