# echx chat client — a Dafny model

This project models the client side of the echx chat protocol, as implemented in the
TypeScript frontend. It covers:

- the wire types;
- the browser WebSocket as the client uses it;
- the transport helpers and the `useWsRequest` hook that defers sends until the socket is open;
- the request/response correlator used by the integration tests;
- the App's session state (room list, selected room, joined rooms, chats per room);
- the display rules of the room list and the chat panel;
- the endpoint resolution of the application shell and the test configuration.

One module per source file:

| module | source file |
|---|---|
| `Types` | frontend/src/api/types.ts |
| `Sockets` | the browser WebSocket as used by the files below |
| `WsApi` | frontend/src/api/ws.ts |
| `WsRequest` | frontend/src/hooks/useWsRequest.ts |
| `WsClient` | frontend/tests/helpers/ws.ts |
| `App` | frontend/src/App.tsx |
| `Rooms` | frontend/src/Rooms.tsx |
| `ChatPanel` | frontend/src/ChatPanel.tsx |
| `Urls` | URL objects, shared by main.tsx and tests/config.ts |
| `Config` | frontend/tests/config.ts |
| `Startup` | frontend/src/main.tsx |
| `Wrappers` | the `Option` type |

How the model represents the source:

- **Classes.** Code that mutates state in place is a class with those fields. This covers the socket's listener lists and sent log, the correlator's `queue` and `pending` arrays, the component state hooks, and URL objects. Each class method is specified against a pure function of the old state, and the properties are proved about those functions.
- **The socket.** A socket is a state record holding:
  - its ready state;
  - its "open" listeners, each a one-shot sender or the shell's exposing listener;
  - its "message" listener identities;
  - the requests it has transmitted.
- **Listener identity.** Function identity (`removeEventListener(fn)`, `entry.resolve === resolve`) is a number drawn from a counter.
- **JSON.** JSON is opaque. A frame's payload is mapped to what `JSON.parse` yields by a parser passed in as a parameter: a throw, one object, or an array. A transmitted frame is recorded as the request it serialises.
- **Timers and clocks.** A waiter's timer firing is the explicit operation `Client.Timeout`. `Date.now()` is a parameter.

The correlator keeps an invariant across every operation: no queued response is accepted by any pending waiter (`WsClient.Settled`). Waiters are also pending in registration order.

Points where the code behaves differently from what its names and types suggest:

- The code has none of the following, so the model has none either:
  - a bounded overflow queue;
  - a pending → confirmed/error message lifecycle with message ids;
  - room creation, renaming, polling and room sizes.
- `App.tsx:59` passes the room's `Chat[]` to the chat panel, but `ChatPanel.tsx:13` expects `ChatMessage[]` (chat, status, isSelf).
  - For every message the panel reads `message.chat.message_id` (`ChatPanel.tsx:57`) and `message.chat.user.name` (`:59`). A `Chat` has no `chat` field, so any non-empty list App passes makes the panel's render throw a TypeError. Only an empty list renders.
  - `App.ChatAreaOf` models what App passes to the panel.
  - `ChatPanel.Render` models what the panel does with the `ChatMessage` values it is typed for.
- `messagesByRoom` (`App.tsx:18`) is a plain JavaScript object. A room id that names a member of `Object.prototype` ("constructor", "toString", "__proto__", …) finds a function, or the prototype itself, instead of a list, and `?? []` keeps it.
  - Rendering that room (`App.tsx:59`) hands the panel a value without `map`, so the render throws.
  - Appending to it (`App.tsx:42`) spreads a non-iterable, which throws.
  - The model represents these names as `App.InheritedKeys`, the lookup as `App.LookupRoom`, and the failed render as the `Broken` chat area.
- `ChatPanel.tsx` reads `chat.timestamp`, which `types.ts` does not declare. The model carries the timestamp beside the chat in `ChatPanel.ChatMessage`, as an extension.
- `main.tsx:41` renders `<App socket={socket} />` without the required `userName`, so at run time App's user name is undefined. `App.AppComponent` therefore takes the user name as an `Option`, and the chats App appends carry that value as their user's name.
- `tests/helpers/ws.ts:93-100` defines `parseResponses` again, identical to `api/ws.ts:29-36`. Both are modelled by `WsApi.ParseResponses`.

## Model

| member | source | states |
|---|---|---|
| Types.RequestType | frontend/src/api/types.ts:1-5 | a request's `type` is one of chat, connect, list_rooms, join_room |
| Types.ResponseType | frontend/src/api/types.ts:22-27 | a response's `type` is one of room_event, error, list_rooms, join_room |
| Types.JoinStatus | frontend/src/api/types.ts:26-27 | a join_room response's status is "ok" or "error" |
| Types.JoinReason | frontend/src/api/types.ts:26-27 | a join_room reason is null exactly when the status is "ok" |
| Types.RequestTypeDeterminesVariant | frontend/src/api/types.ts:1-5 | the `type` tag of a request determines its variant |
| Types.ResponseTypeDeterminesVariant | frontend/src/api/types.ts:22-27 | the `type` tag determines the response variant, except that the two join_room shapes share one tag and are told apart by status |
| Sockets.WebSocket.constructor | frontend/src/main.tsx:21 | a new socket is connecting, with no listeners and nothing sent |
| Sockets.WebSocket.Send | frontend/src/api/ws.ts:4 | a frame is transmitted only on an OPEN socket; nothing else changes |
| Sockets.WebSocket.AddOpenListener | frontend/src/hooks/useWsRequest.ts:30 | appends one "open" listener with a fresh identity; nothing else changes |
| Sockets.WebSocket.RemoveOpenListener | frontend/src/hooks/useWsRequest.ts:26 | removes the "open" listener with that identity; nothing else changes |
| Sockets.WebSocket.AddMessageListener | frontend/src/api/ws.ts:23 | appends one "message" listener with an identity not already registered |
| Sockets.WebSocket.RemoveMessageListener | frontend/src/api/ws.ts:25 | removes exactly the "message" listener with that identity |
| Sockets.WebSocket.FireOpen | frontend/src/hooks/useWsRequest.ts:25-30 | "open" runs the listeners registered before it, in order. Each one-shot listener removes itself and transmits its request once, so the sent log grows by the deferred requests in registration order. Only the exposing listeners stay |
| Sockets.WebSocket.Close | frontend/src/main.tsx:31 | a connecting or open socket starts closing; a closing or closed one is unchanged |
| Sockets.WebSocket.FinishClose | frontend/tests/helpers/ws.ts:84-87 | the "close" event: the closing handshake completes and the socket is CLOSED |
| Sockets.ClosingIsQuiet | frontend/tests/helpers/ws.ts:80-88 | a closing or closed socket transmits nothing and ignores a further close. Only the handshake's completion moves it on, to CLOSED |
| Sockets.RunOpenListeners | frontend/src/hooks/useWsRequest.ts:25-30 | the dispatch loop fires the whole snapshot. Its result is the sent log extended by the deferred requests and the listener list without the one-shot listeners |
| Sockets.RemoveOpenMembers | frontend/src/hooks/useWsRequest.ts:26 | removing a listener keeps every listener with another identity and no listener with that one |
| Sockets.RemoveMessageMembers | frontend/src/api/ws.ts:25 | unsubscribing keeps every other "message" listener and drops the given one |
| Sockets.PersistentMembers | frontend/src/main.tsx:23-27 | after "open", the listeners left are exactly the exposing ones |
| WsApi.ParseResponses | frontend/src/api/ws.ts:29-36 | a malformed payload gives null; a single object gives a one-element list; an array is kept as it is |
| WsApi.Payload | frontend/src/api/ws.ts:12 | string data is parsed as it is; any other data goes through `String(data)` |
| WsApi.DispatchFrame | frontend/src/api/ws.ts:11-21 | the handler is called once per response, in array order. A malformed frame calls it zero times; a single object calls it exactly once |
| WsApi.SendWsRequest | frontend/src/api/ws.ts:3-5 | exactly one frame, the request, is transmitted on an open socket |
| WsApi.OnWsResponses | frontend/src/api/ws.ts:7-23 | registers one new "message" listener and returns its identity |
| WsApi.Unsubscribe | frontend/src/api/ws.ts:24-26 | the returned remover removes exactly that listener |
| WsApi.SubscribeUnsubscribe | frontend/src/api/ws.ts:23-26 | subscribing and then unsubscribing restores the listener list |
| WsRequest.Send | frontend/src/hooks/useWsRequest.ts:12-33 | a null socket is untouched; an OPEN socket transmits the request at once; otherwise one one-shot "open" listener carrying the request is added |
| WsRequest.SendWhenOpen | frontend/src/hooks/useWsRequest.ts:20-23 | on an OPEN socket, any sequence of sends transmits each request once, in call order, and adds no listener |
| WsRequest.SendBeforeOpen | frontend/src/hooks/useWsRequest.ts:25-30 | before "open", each send adds its own one-shot listener and transmits nothing. The deferred requests grow by the sent ones, in order |
| WsRequest.DeferredFlushedOnOpen | frontend/src/hooks/useWsRequest.ts:25-30 | requests sent while connecting are all transmitted when "open" fires, once each, in call order; none of the hook's listeners remains |
| WsRequest.DeferredThenClosed | frontend/src/main.tsx:29-31 | requests sent while connecting, and any sent after a close, are never transmitted. A close before "open" leaves the socket CLOSING with every request still parked in a listener that never runs |
| WsRequest.RegisterResponses | frontend/src/hooks/useWsRequest.ts:35-45 | a response listener is registered iff there is both a socket and a handler |
| WsRequest.Cleanup | frontend/src/hooks/useWsRequest.ts:44 | the effect's cleanup removes exactly the listener the effect registered |
| WsClient.FindIndexOf | frontend/tests/helpers/ws.ts:41 | findIndex gives the first index whose element satisfies the predicate, or -1 exactly when none does |
| WsClient.RouteSpec | frontend/tests/helpers/ws.ts:41-48 | a response resolves the oldest pending waiter that accepts it. Only that waiter is removed and the queue is unchanged. With no such waiter the response goes to the tail of the queue and pending is unchanged |
| WsClient.RouteAllDeliversEach | frontend/tests/helpers/ws.ts:40-49 | a frame's responses are handled in array order, each delivered exactly once, either to a waiter or to the queue |
| WsClient.RouteAllQueues | frontend/tests/helpers/ws.ts:40-49 | the queue grows by exactly the frame's responses that no waiter took, in order |
| WsClient.WaitSpec | frontend/tests/helpers/ws.ts:62-76 | a wait takes the oldest queued response it accepts, keeps the rest of the queue in order and registers nothing. Only when none matches is exactly this waiter appended to pending, with the queue untouched |
| WsClient.ExpireSpec | frontend/tests/helpers/ws.ts:69-73 | a timer removes only its own waiter, if still pending; the queue never changes |
| WsClient.RouteKeepsOrderly | frontend/tests/helpers/ws.ts:41-48 | routing a response keeps "no queued response is accepted by a pending waiter", and keeps waiters in registration order |
| WsClient.RouteAllKeepsOrderly | frontend/tests/helpers/ws.ts:33-50 | handling a whole frame keeps the same invariant |
| WsClient.WaitKeepsOrderly | frontend/tests/helpers/ws.ts:62-76 | waiting keeps the invariant, and the new waiter's id is the newest |
| WsClient.ExpireKeepsOrderly | frontend/tests/helpers/ws.ts:69-73 | a timeout keeps the invariant and leaves no waiter with its id |
| WsClient.EarlyResponseTaken | frontend/tests/helpers/ws.ts:48-66 | a response queued before anyone asked settles a later waiter that accepts it at once. When no response queued earlier is one that waiter accepts, the waiter receives exactly this response, and the book returns to what it was before the response arrived |
| WsClient.LateResponseResolves | frontend/tests/helpers/ws.ts:41-76 | a waiter registered before its response is resolved by it when no older waiter accepts the response |
| WsClient.ExpiredWaiterMissesResponse | frontend/tests/helpers/ws.ts:41-75 | after a timeout, a response only the expired waiter would accept goes to the queue |
| WsClient.OldestWaiterWins | frontend/tests/helpers/ws.ts:41 | the resolved waiter has the smallest id among those that accept the response |
| WsClient.Deliver | frontend/tests/helpers/ws.ts:40-49 | the per-response loop computes the routing of the whole frame |
| WsClient.Client.constructor | frontend/tests/helpers/ws.ts:24-52 | a client starts with an empty queue and no waiters, and registers one message listener on the socket |
| WsClient.Client.HandleMessage | frontend/tests/helpers/ws.ts:33-50 | a frame that does not parse changes nothing; otherwise its responses are routed in order; the invariant is kept |
| WsClient.Client.Send | frontend/tests/helpers/ws.ts:54-56 | send transmits the request on the socket |
| WsClient.Client.WaitForResponse | frontend/tests/helpers/ws.ts:58-78 | the queue-or-register step, with the timeout defaulting to 2000 ms |
| WsClient.Client.Timeout | frontend/tests/helpers/ws.ts:69-75 | the error "Timed out waiting for response" is reported iff the waiter was still pending. Its waiter is gone afterwards |
| WsClient.Client.Close | frontend/tests/helpers/ws.ts:80-88 | a CLOSED socket is left untouched; otherwise a close is requested |
| App.Initial | frontend/src/App.tsx:15-18 | no room selected, no rooms, nothing joined, no chats |
| App.HandleListRooms | frontend/src/App.tsx:20-24 | a list_rooms response replaces the room list; any other response leaves the state as it is |
| App.LastListWins | frontend/src/App.tsx:20-24 | after any responses, the room list is that of the last list_rooms response. Other response types leave it, and the whole state, unchanged |
| App.LookupRoom | frontend/src/App.tsx:42 | `messagesByRoom[roomID]` finds the room's own list, nothing, or, for a name inherited from `Object.prototype`, a member that is not a list |
| App.AppendChat | frontend/src/App.tsx:40-43 | the chat goes to the tail of that room's list, created if absent, and every other room's list is unchanged. On an id that finds an inherited `Object.prototype` member, the update throws and there is no new object |
| App.MessageSent | frontend/src/App.tsx:33-47 | with no room selected nothing changes and nothing is sent. Otherwise one chat request with that content and room is sent, and a chat with the content and the user name is appended to the selected room. When the append throws on an inherited name, the request has still been sent and the state is unchanged |
| App.Join | frontend/src/App.tsx:50-55 | one join_room request is sent for the room; the room becomes selected and is added to the joined set; nothing else changes |
| App.JoinButton | frontend/src/Rooms.tsx:84-85 | a Join click joins the row's own room when the room is not joined, and does nothing when it is |
| App.SessionOnlyGrows | frontend/src/App.tsx:33-55 | under any events the joined set only grows, and every room's chat list only grows at its tail |
| App.SessionKeepsPlainKeys | frontend/src/App.tsx:40-43 | no sequence of events stores a chat list under a name inherited from `Object.prototype` |
| App.JoinIdempotent | frontend/src/App.tsx:54 | joining the same room twice gives the same state as joining it once |
| App.ChatAreaOf | frontend/src/App.tsx:59 | the placeholder iff no room is selected. Otherwise App passes the room's chats to the panel (none if absent), except that on an inherited name the render throws |
| App.InheritedRoomBreaks | frontend/src/App.tsx:59 | from the initial state, after any events, selecting a room whose id names an `Object.prototype` member breaks the main area |
| App.JoinSelects | frontend/src/App.tsx:50-60 | after joining a room, App passes its chats to the panel (or breaks on an inherited name). Its row is badged "selected" and its Join button does nothing, and a click on it deselects it |
| App.TypedChatShown | frontend/src/App.tsx:40-59 | a chat typed in the selected room is sent, and is passed to the panel at the end of that room's list (the area stays broken on an inherited name) |
| App.AppComponent.constructor | frontend/src/App.tsx:14-18 | the component starts in the initial state |
| App.AppComponent.Mount | frontend/src/App.tsx:26-29 | the list-rooms handler is subscribed iff there is a socket, then a list_rooms request is sent |
| App.AppComponent.OnResponse | frontend/src/App.tsx:20-24 | a response updates the state as handleListRooms does |
| App.AppComponent.OnMessageSent | frontend/src/App.tsx:33-47 | the state follows MessageSent, and the chat request goes through the hook's send only when a room is selected |
| App.AppComponent.JoinRoom | frontend/src/App.tsx:50-55 | the state follows Join, and the join request goes through the hook's send |
| App.AppComponent.OnJoinClick | frontend/src/Rooms.tsx:84-85 | a Join click calls joinRoom with the row's id when the button is enabled, and changes nothing when the room is joined |
| App.AppComponent.OnRoomClick | frontend/src/App.tsx:60 | a room click sets the selected id as the main-button rule says |
| App.AppComponent.Unmount | frontend/src/hooks/useWsRequest.ts:35-45 | the list-rooms hook's cleanup removes exactly the response listener its effect registered, and the component state is unchanged |
| Rooms.MainClick | frontend/src/Rooms.tsx:42-50 | the active room deselects (id becomes ""); an inactive joined room is selected; an inactive unjoined room does nothing |
| Rooms.BadgeLabel | frontend/src/Rooms.tsx:79 | "selected" iff active, else "joined" iff joined, else "open" |
| Rooms.JoinClick | frontend/src/Rooms.tsx:84-85 | a Join click calls joinRoom with that room's own id exactly when the button is enabled, that is, when the room is not joined |
| Rooms.IsActive | frontend/src/Rooms.tsx:27 | a row is active iff its id is the selected id |
| Rooms.IsJoined | frontend/src/Rooms.tsx:28 | a room is joined iff this session joined it or the server says it is |
| Rooms.PointerCursor | frontend/src/Rooms.tsx:53 | the pointer cursor iff joined or active |
| Rooms.JoinDisabled | frontend/src/Rooms.tsx:85 | the Join button is disabled iff the room is joined |
| Rooms.RoomRows | frontend/src/Rooms.tsx:26-91 | one row per room, in list order. Each row carries its active and joined flags, badge and cursor, and what its Join button does: join that room's id when not joined, otherwise nothing |
| Rooms.View | frontend/src/Rooms.tsx:21 | the count badge equals the number of rooms and of rows |
| Rooms.AtMostOneActive | frontend/src/Rooms.tsx:27 | with distinct room ids, at most one row is active |
| Rooms.BadgeAgreesWithClick | frontend/src/Rooms.tsx:42-80 | "selected" rows deselect on click, "joined" rows select, "open" rows do nothing |
| Rooms.PointerIffClickable | frontend/src/Rooms.tsx:42-54 | the pointer cursor is shown exactly on rows whose main button does something |
| Rooms.ClickTwice | frontend/src/Rooms.tsx:42-50 | on a joined room, a click deselects it and a second click selects it again |
| ChatPanel.TimestampToMillis | frontend/src/ChatPanel.tsx:106-108 | milliseconds are the seconds times 1000 plus the nanoseconds rounded down to whole milliseconds |
| ChatPanel.SubSecondMillis | frontend/src/ChatPanel.tsx:107 | for nanoseconds in [0, 10^9), the sub-second part adds 0 to 999 ms |
| ChatPanel.MillisRoundTrip | frontend/src/ChatPanel.tsx:107 | the seconds and the whole milliseconds are recovered from the result |
| ChatPanel.MillisMonotone | frontend/src/ChatPanel.tsx:106-108 | later timestamps never give earlier milliseconds |
| ChatPanel.TimeTextOf | frontend/src/ChatPanel.tsx:64-66 | a formatted time only when confirmed, "Sending..." otherwise |
| ChatPanel.DateTimeAttr | frontend/src/ChatPanel.tsx:62 | the dateTime attribute is set only when confirmed |
| ChatPanel.TimeAndAttrAgree | frontend/src/ChatPanel.tsx:60-66 | the label and the attribute describe the same instant |
| ChatPanel.ShowsDeliveryFailed | frontend/src/ChatPanel.tsx:70-72 | "Delivery failed" is shown iff the status is error |
| ChatPanel.DropEmpty | frontend/src/ChatPanel.tsx:52 | the empty class entries are dropped and every other entry is kept |
| ChatPanel.BubbleClasses | frontend/src/ChatPanel.tsx:46-53 | the class list is the base class plus the status and ownership classes, with empty entries filtered out (properties in BubbleStyle) |
| ChatPanel.BubbleStyle | frontend/src/ChatPanel.tsx:46-53 | the primary style iff own message, reduced opacity iff pending, error border iff error; no empty entry |
| ChatPanel.Alignment | frontend/src/ChatPanel.tsx:54 | chat-end iff own message, chat-start otherwise |
| ChatPanel.SenderName | frontend/src/ChatPanel.tsx:59 | "Anonymous" only for a null name; any other name, even empty, is shown as it is |
| ChatPanel.Render | frontend/src/ChatPanel.tsx:45-75 | one row per message, in order |
| ChatPanel.Composer.constructor | frontend/src/ChatPanel.tsx:18 | the draft starts empty |
| ChatPanel.Composer.Type | frontend/src/ChatPanel.tsx:90 | typing replaces the draft |
| ChatPanel.Composer.Submit | frontend/src/ChatPanel.tsx:79-83 | the draft is passed on verbatim, even empty, then cleared |
| Urls.WsScheme | frontend/src/main.tsx:55 | https: becomes wss:, every other scheme ws: |
| Urls.UrlObject.constructor | frontend/tests/config.ts:19 | a URL object starts with the given components |
| Config.DecimalString | frontend/tests/config.ts:13 | a clock reading prints as decimal digits with no leading zero |
| Config.DecimalRoundTrip | frontend/tests/config.ts:13 | reading the printed digits back gives the clock reading |
| Config.CreateIdentity | frontend/tests/config.ts:11-16 | the name is "tester-" + suffix; the token is "integration-" + suffix + "-" + time |
| Config.TokensDiffer | frontend/tests/config.ts:13 | identities made at different times have different tokens |
| Config.NamesDiffer | frontend/tests/config.ts:14 | different suffixes give different names |
| Config.MakeWsUrl | frontend/tests/config.ts:18-25 | https: maps to wss: and any other scheme to ws:. The path is /ws, search and hash are empty, and host and port are kept |
| Startup.ResolveWebSocketUrl | frontend/src/main.tsx:48-62 | a non-empty configured URL is returned verbatim. Otherwise the result is the origin with path /ws and the WebSocket scheme, with localhost:5173 rewritten to port 8080 and any other host and port kept |
| Startup.MainComponent.constructor | frontend/src/main.tsx:18 | the App's socket starts null |
| Startup.MainComponent.Mount | frontend/src/main.tsx:20-27 | the effect creates a connecting socket whose only listener is the exposing "open" listener; the App's socket stays null |
| Startup.MainComponent.SocketOpened | frontend/src/main.tsx:23-25 | the socket is exposed to App only by its "open" event, through the effect's listener |
| Startup.MainComponent.Unmount | frontend/src/main.tsx:29-33 | cleanup removes the "open" listener, requests a close and resets the App's socket to null |
| Startup.TeardownBeforeOpen | frontend/src/main.tsx:29-31 | cleanup before "open" leaves the socket CLOSING, so "open" can no longer fire and nothing is transmitted. The listener that would expose the socket is gone in any state |

## Left out

- Real I/O. This covers `openSocket` and its error event, the awaiting of the "close" event in `close`, and frontend/src/api/http.ts. Sockets are a state record, not the platform API.
- Sockets.WebSocket.Send: a socket throws when sent to while CONNECTING, and drops frames once closing or closed. The model drops frames whenever the socket is not OPEN.
  - The hook sends only after checking for OPEN.
  - The test client's `send` has no such check. Its sockets come from `openSocket`, which waits for "open", but a client built on a connecting socket would throw where the model drops.
- Sockets: listener identity is a counter. Adding the same function twice, which the platform ignores, is not modelled, because no modelled caller does it.
- `JSON.parse` and `JSON.stringify` are opaque. The model has no JSON grammar and does not validate the shape of a parsed response.
- `String(data)` for non-string frame data is a parameter. The source itself prints Blob and ArrayBuffer data as `[object …]`.
- WsClient: the promises and `resolve`/`reject` are represented by the delivery log and the timeout's error result. `clearTimeout` is represented by the rule that a timer whose waiter was already resolved changes nothing. The timeout length is kept with the waiter, and the clock that counts it down is not modelled.
- Intl date formatting, `toISOString` and `new Date`. A formatted time is represented by its epoch milliseconds.
- ChatPanel.TimestampToMillis: JavaScript numbers are doubles. The model uses unbounded integers, so precision loss above 2^53 ms is not modelled.
- React rendering and effect scheduling, CSS class strings other than the decisions they encode, scrolling, the message key, and the static components (TopBar, EmptyChat, Chat mock data).
- WHATWG URL parsing and serialisation, setter restrictions, and default-port normalisation. URLs are component records.
- Startup.ResolveWebSocketUrl: `new URL("/ws", origin)` is modelled as the origin's components with path "/ws" and empty search and hash.
- `process.env` and `import.meta.env` are parameters (`fromEnv`, `baseUrl`). `Date.now()` is the parameter `now`.
- The integration specs under frontend/tests/integration and `formatRoomSize` (imported by Rooms.test.ts but defined nowhere) are not part of this model.
