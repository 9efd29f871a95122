# Real-time transport snippets: routing and authentication cores in Dafny

This project models two small cores of a set of real-time web examples and
proves properties about them.

1. **Namespace/room routing** in the socket.io servers (`socket.io/server-enhanced.js`
   and its earlier subset `socket.io/server.js`). The model is a pure state
   machine with three namespaces: `/general`, `/admin` and `/support`. Each
   namespace keeps its live sockets, the properties the handlers store on them
   (`username`, `currentRoom`, `adminName`, `agentName`) and a room index (room
   name to member ids). Every inbound event is a `Command`. `Step` returns the
   next state and a list of emits. Each emit is the recipient set of one
   library delivery call plus its payload. The library's primitives are sets:
   - `socket.to(r)` is the members of `r` minus the sender;
   - `namespace.to(r)` is the members of `r`;
   - `namespace.emit` is every live socket of the namespace;
   - `socket.emit` is the sender alone.

   JavaScript truthiness is explicit. `if (socket.currentRoom)` is false for
   the empty string as well as for `undefined`/`null`. So a socket that joined
   the room `""` can neither chat nor leave, and its disconnect sends no
   departure notice. An empty `adminName` or `agentName` only suppresses the
   departure notice (socket.io/server-enhanced.js:158, 198). `admin-message`
   and `support-message` have no guard, so such a socket still sends and
   receives room messages (socket.io/server-enhanced.js:131-141, 186-195).
2. **WebSocket authentication validators** (`ws-client-auth/auth-middleware.js`
   and `authenticate` in `ws-client-auth/server.js`). These are pure decision
   procedures returning `Result<Client, AuthError>`:
   - the token check against a token table;
   - session lookup with strict expiry, with the clock as a parameter;
   - session-id extraction from the query string or the `Cookie` header;
   - the `Bearer` header with a three-part JWT shape check;
   - the session store with creation and expiry cleanup;
   - the server's accept/reject decision and its welcome and echo texts.

Files:
- `wrappers.dfy`: `Option`, `Result` and JavaScript truthiness.
- `rooms.dfy`: one namespace's state and the delivery primitives.
- `routing.dfy`: the handlers of server-enhanced.js, plus `Step` and `Run`.
- `routing_props.dfy`: the invariant and the isolation and delivery properties.
- `basic_routing.dfy`: server.js.
- `strings.dfy`: JavaScript `split`, `trim` and `startsWith`.
- `auth.dfy`: `WebSocketAuth`.
- `ws_server.dfy`: the authenticated echo server.

**Behaviour of the code worth knowing:**
- `join-room` adds a membership and overwrites `currentRoom`. It never leaves the
  previous room and sends no departure notice there.
  `RoutingProps.JoinKeepsEarlierRooms` and
  `RoutingProps.SwitchedUserStillHearsOldRoom` state this.
  A socket that switched rooms without leaving still receives the old room's chat.
- `disconnect` has no lock and no repeat guard. The library calls each socket's
  `disconnect` once. In the model a repeated disconnect reaches no handler
  (`RoutingProps.DisconnectTwiceIsQuiet`).
- `createSession` reads `Date.now()` twice: once for `expires` and once for
  `createdAt`. The model takes the two readings as two parameters.

**Assumption about `disconnect`:** socket.io removes a closing socket from all its
rooms and from the namespace before the `disconnect` handler runs. The model
does this removal inside the disconnect transition. The handler's
`socket.to(room)` then reaches the remaining members, which equals the room's
members before removal minus the socket.

## Model

| member | source | states |
|---|---|---|
| Routing.OnConnect | socket.io/server-enhanced.js:23-24 | a new connection joins exactly one namespace with no properties and no rooms, sends nothing, keeps every other socket's properties, and leaves the other namespaces untouched |
| Routing.OnJoinRoom | socket.io/server-enhanced.js:26-43 | sets `username` and `currentRoom`, adds the one membership while every earlier membership stays, `user-joined` goes to the room's other members only, then `room-joined` to the joiner only |
| Routing.OnLeaveRoom | socket.io/server-enhanced.js:45-54 | a no-op unless `currentRoom` is truthy; otherwise `user-left` goes to the other members as they were before removal, only the current room is left, `currentRoom` becomes null, and other sockets and rooms are unchanged |
| Routing.OnChatMessage | socket.io/server-enhanced.js:57-70 | nothing is sent without a truthy `currentRoom`; otherwise one emit to exactly the current room's members, with the payload's `room` equal to `currentRoom` |
| Routing.OnBroadcastMessage | socket.io/server-enhanced.js:73-84 | no join precondition; the recipients are every live `/general` socket |
| Routing.OnAdminAnnouncement | socket.io/server-enhanced.js:87-100 | something is sent iff `username` is exactly `Admin1` or `Admin2`, and then to every `/general` socket |
| Routing.OnGeneralDisconnect | socket.io/server-enhanced.js:102-110 | the socket leaves the namespace and every room, the remaining sockets keep their properties; `user-left` goes only when `currentRoom` was truthy, to that room's other members |
| Routing.OnAdminJoin | socket.io/server-enhanced.js:117-129 | sets `adminName` and joins `admin-room`; `admin-connected` goes to the joiner, then `admin-joined` to the other admin-room members |
| Routing.OnAdminMessage | socket.io/server-enhanced.js:131-141 | no join guard; the recipients are exactly the admin-room members |
| Routing.OnSendAnnouncement | socket.io/server-enhanced.js:144-155 | no authorisation or join check; the recipients are every `/general` socket |
| Routing.OnAdminDisconnect | socket.io/server-enhanced.js:157-165 | the socket leaves `/admin` and every room, the remaining sockets keep their properties; `admin-left` goes only when `adminName` was truthy, to the other admin-room members |
| Routing.OnSupportJoin | socket.io/server-enhanced.js:172-184 | sets `agentName` and joins `support-room`; `support-connected` goes to the joiner, then `agent-joined` to the other members |
| Routing.OnSupportMessage | socket.io/server-enhanced.js:186-195 | no join guard; the recipients are exactly the support-room members |
| Routing.OnSupportDisconnect | socket.io/server-enhanced.js:197-205 | the socket leaves `/support` and every room, the remaining sockets keep their properties; `agent-left` goes only when `agentName` was truthy, to the other support-room members |
| Routing.Step | socket.io/server-enhanced.js:22-206 | an event that cannot reach a handler changes nothing and sends nothing: a `connection` whose id is already live in some namespace, or any other event from a socket not live in the namespace that registered the handler; otherwise only the namespace whose handler received the event can change |
| RoutingProps.StepPreservesValid | socket.io/server-enhanced.js:22-206 | every event keeps the invariant: rooms list only live sockets, namespaces share no ids, a current room contains its socket, and a fixed-room member has its name set |
| RoutingProps.RunPreservesValid | socket.io/server-enhanced.js:22-206 | any sequence of events from a valid state ends in a valid state |
| RoutingProps.StepStaysInNamespace | socket.io/server-enhanced.js:17-20 | namespace isolation: each event reaches only live sockets of its own namespace, except `send-announcement`, which reaches only `/general` |
| RoutingProps.NoticesSkipActor | socket.io/server-enhanced.js:33-37 | join and departure notices never reach the socket whose event caused them, in any namespace |
| RoutingProps.ChatReachesCurrentRoom | socket.io/server-enhanced.js:57-70 | chat reaches exactly the current room, sender included, tagged with that room, and nobody in `/admin` or `/support`; with no truthy room it reaches nobody |
| RoutingProps.BroadcastReachesNamespace | socket.io/server-enhanced.js:73-84 | broadcast reaches every `/general` socket regardless of room, and none in `/admin` or `/support` |
| RoutingProps.AnnouncementIsGated | socket.io/server-enhanced.js:87-100 | announcement from `/general` reaches all of `/general` for `Admin1`/`Admin2`, and sends nothing anywhere for any other name |
| RoutingProps.SendAnnouncementReachesGeneral | socket.io/server-enhanced.js:144-155 | announcement from `/admin` reaches all of `/general`, never `/admin` or `/support` |
| RoutingProps.AdminMessageReachesRoom | socket.io/server-enhanced.js:131-141 | admin messages reach admin-room members only; a sender that never joined receives nothing back |
| RoutingProps.SupportMessageReachesRoom | socket.io/server-enhanced.js:186-195 | support messages reach support-room members only; a sender that never joined receives nothing back |
| RoutingProps.DisconnectNotices | socket.io/server-enhanced.js:102-205 | in every namespace, a departure notice goes only if the socket had joined, only to the other members of that one room, and the socket ends in no room |
| RoutingProps.DisconnectTwiceIsQuiet | socket.io/server-enhanced.js:102-110 | a second disconnect of the same socket sends nothing and changes nothing |
| RoutingProps.JoinKeepsEarlierRooms | socket.io/server-enhanced.js:26-29 | after joining `r1` then `r2` the socket is in both rooms, and `r2` is its current room |
| RoutingProps.LeaveAfterSwitchKeepsFirstRoom | socket.io/server-enhanced.js:45-53 | after two joins, `leave-room` leaves only the later room and nulls `currentRoom`; the first membership remains |
| RoutingProps.SwitchedUserStillHearsOldRoom | socket.io/server-enhanced.js:26-67 | a socket that joins a second room without leaving stays in the first; a chat from another member of the first room still reaches it, tagged with the first room |
| BasicRouting.Step | socket.io/server.js:28-170 | every event other than `chat-message`, `broadcast-message`, `admin-announcement` and `send-announcement` is handled exactly as server-enhanced.js handles it; only the namespace that received the event can change |
| BasicRouting.OnChatMessage | socket.io/server.js:65-77 | nothing is sent without a truthy `currentRoom`; otherwise the current room's members get a payload with `username` and `message` and no `room` |
| BasicRouting.ChatReachesCurrentRoom | socket.io/server.js:65-77 | chat reaches exactly the current room, sender included, and never carries a room |
| BasicRouting.StepStaysInOrigin | socket.io/server.js:28-170 | no event reaches a socket outside the namespace that received it: there is no broadcast or announcement path |
| BasicRouting.StepPreservesValid | socket.io/server.js:28-170 | server.js keeps the same state invariant |
| BasicRouting.UnhandledEventsIgnored | socket.io/server.js:28-130 | `broadcast-message`, `admin-announcement` and `send-announcement` have no handler and do nothing |
| Rooms.Nsp.Remove | socket.io/server-enhanced.js:102-110 | a closing socket is no longer live and is in no room; every remaining socket keeps its properties and every room keeps its other members |
| Rooms.Nsp.Join | socket.io/server-enhanced.js:28 | `socket.join(r)` adds exactly one membership, of that socket in `r`; every other room keeps its members and the sockets and their properties are unchanged |
| Rooms.Nsp.Leave | socket.io/server-enhanced.js:51 | `socket.leave(r)` removes exactly that socket from `r`; every other room keeps its members and the sockets and their properties are unchanged |
| Rooms.Nsp.SocketTo | socket.io/server-enhanced.js:34 | `socket.to(r)` reaches exactly the members of `r` other than the sender, never the sender |
| Rooms.Nsp.NspTo | socket.io/server-enhanced.js:67 | `namespace.to(r)` reaches exactly the ids the room index lists for `r`, nobody for a room never joined, and only live sockets when rooms list only live sockets |
| Rooms.Nsp.NspEmit | socket.io/server-enhanced.js:82 | `namespace.emit` reaches exactly the live sockets, and so every member of every room when rooms list only live sockets |
| Rooms.SocketEmit | socket.io/server-enhanced.js:39 | `socket.emit` reaches the sender and nobody else |
| Auth.CheckToken | ws-client-auth/auth-middleware.js:17-33 | a missing or empty token or username fails first; an unknown token gives "Invalid token"; a name mismatch gives "Username does not match token"; success is exactly the table entry whose name equals the username |
| Auth.AuthenticateByToken | ws-client-auth/auth-middleware.js:12-34 | built on the corrected own-key check `Auth.CheckToken` (see Findings): succeeds iff both query parameters are non-empty, the token is an own key of the table and its entry's name equals `username`, and then returns that entry |
| Auth.CheckTokenAsWritten | ws-client-auth/auth-middleware.js:21-28 | the lookup as written, which also sees `Object.prototype` members; on success the found value's `name` equals the username |
| Auth.LookupAsWritten | ws-client-auth/auth-middleware.js:21-24 | own keys come first, and a key is undefined only when it is neither an own key nor an `Object.prototype` member |
| Auth.PrototypeTokenAccepted | ws-client-auth/auth-middleware.js:21-33 | the code as written accepts `toString`/`toString` and `constructor`/`Object`; the corrected check rejects both with "Invalid token" |
| Auth.CheckTokenAgreesOnOwnKeys | ws-client-auth/auth-middleware.js:21-33 | for any token that is not an inherited name, the as-written and corrected checks give the same outcome |
| Auth.ExtractSessionId | ws-client-auth/auth-middleware.js:77-95 | a truthy `sessionId` parameter takes precedence; otherwise the cookie's `sessionId` entry is returned; the result is null iff neither a truthy parameter nor a truthy `Cookie` header is present |
| Auth.CookieKey | ws-client-auth/auth-middleware.js:87 | a cookie's key is the trimmed cookie's text before its first `=`, or all of it when there is no `=`; it never contains `=` |
| Auth.CookieValue | ws-client-auth/auth-middleware.js:87 | a cookie's value is `undefined` iff the trimmed cookie has no `=`; otherwise it is the text after the key's `=` up to the next `=` or the end, so `a=b=c` gives `b` |
| Auth.CollectCookies | ws-client-auth/auth-middleware.js:86-90 | the `reduce` adds only keys of the given cookies to the accumulator and never stores `null` |
| Auth.ParseCookies | ws-client-auth/auth-middleware.js:86-90 | every key of the parsed cookie object holds a string or `undefined`, never `null` |
| Auth.LastIndex | ws-client-auth/auth-middleware.js:86-90 | the position of the last occurrence of a key among the cookie keys, or none when the key does not occur |
| Auth.CollectLastWins | ws-client-auth/auth-middleware.js:86-90 | the `reduce` leaves a key alone when no cookie carries it, and otherwise assigns it the value of the last cookie carrying it |
| Auth.CookieLastWins | ws-client-auth/auth-middleware.js:84-91 | a key reads as `undefined` when no cookie carries it, and otherwise as the value of the last cookie carrying it; a later duplicate overwrites an earlier one |
| Auth.AuthenticateBySession | ws-client-auth/auth-middleware.js:37-52 | no truthy session id gives "No session ID provided"; success iff the session exists and `now <= expires` (so `expires == now` is accepted), returning `session.user`; any other failure gives "Invalid or expired session" |
| Auth.CreateSession | ws-client-auth/auth-middleware.js:116-126 | stores the user under the returned id with `expires = clock + expiresIn` (default 3600000); every other entry is unchanged |
| Auth.CreateThenAuthenticate | ws-client-auth/auth-middleware.js:116-125 | a created session authenticates its user exactly up to and including its expiry instant |
| Auth.Unexpired | ws-client-auth/auth-middleware.js:134-141 | the entries kept at `now` are exactly those with `expires >= now`, unchanged |
| Auth.CleanupExpiredSessions | ws-client-auth/auth-middleware.js:134-141 | the loop removes exactly the sessions with `expires < now` and leaves the others unchanged |
| Auth.CleanupIdempotent | ws-client-auth/auth-middleware.js:134-141 | a second cleanup at the same `now` removes nothing more |
| Auth.CleanupKeepsSessionDecisions | ws-client-auth/auth-middleware.js:134-141 | a cleanup at `now` does not change any session-authentication outcome at `now` |
| Auth.DecodeJwt | ws-client-auth/auth-middleware.js:98-113 | defined iff the token has exactly two dots (three parts) and the middle part decodes; the result carries `sub`, `name`, `role` and `exp` unchanged |
| Auth.AuthenticateByJwt | ws-client-auth/auth-middleware.js:55-74 | a header that is missing or does not start with `Bearer ` gives "No JWT token provided"; otherwise the token is the rest after 7 characters, and any decode failure gives "Invalid JWT token"; `exp` is never checked |
| Auth.BearerRoundTrip | ws-client-auth/auth-middleware.js:55-74 | `Bearer h.p.s` with a decodable `p` authenticates to `p`'s claims, whatever their expiry |
| JsStrings.Split | ws-client-auth/auth-middleware.js:101-104 | `split` gives one more piece than there are separators, and no piece contains the separator |
| JsStrings.SplitFirst | ws-client-auth/auth-middleware.js:87 | the first piece of a split is the text before the first separator; there is a single piece iff the separator does not occur, and otherwise the remaining pieces are the split of the text after that separator |
| JsStrings.JoinSplit | ws-client-auth/auth-middleware.js:101 | joining the pieces of a split gives back the original string |
| JsStrings.SplitJoin | ws-client-auth/auth-middleware.js:101 | splitting a join of separator-free pieces gives back the pieces |
| JsStrings.Trim | ws-client-auth/auth-middleware.js:87 | `trim` keeps a contiguous slice, drops only whitespace at both ends, and the result neither starts nor ends with whitespace |
| WsServer.Authenticate | ws-client-auth/server.js:53-83 | on success the returned client is an entry of the fixed table whose id and name are the given token and username |
| WsServer.AuthenticateAsWritten | ws-client-auth/server.js:53-83 | the lookup as written accepts every client the corrected check accepts, with the same own entry, and anything it accepts has the given username as its name |
| WsServer.AuthenticateAcceptsExactly | ws-client-auth/server.js:60-82 | succeeds exactly for (user123, Alice), (admin456, Bob) and (guest789, Charlie), returning the entry with role user, admin or guest |
| WsServer.AuthenticateErrors | ws-client-auth/server.js:66-77 | built on the corrected own-key lookup (see Findings): an absent or empty value is checked before lookup; a token that is not an own key of the table gives "Invalid token"; a known token with another name gives "Username does not match token" |
| WsServer.PrototypeTokenBypass | ws-client-auth/server.js:70-77 | the code as written lets `?token=toString&username=toString` and `?token=constructor&username=Object` through; the corrected `Authenticate` refuses both |
| WsServer.Decide | ws-client-auth/server.js:35-48 | an error or a missing client yields the raw 401 response; otherwise the connection is handed over with that client |
| WsServer.HandleUpgrade | ws-client-auth/server.js:31-50 | built on the corrected `WsServer.Authenticate` (see Findings): the upgrade is accepted iff authentication succeeds, and the `connection` event carries the authenticated client |
| WsServer.Welcome | ws-client-auth/server.js:28 | the welcome text starts with `Welcome ` and the client's name, and ends with the client's id |
| WsServer.Echo | ws-client-auth/server.js:20 | the reply starts with `Echo from server: ` and the data unchanged, and ends with the sender's name and `)` |
| WsServer.WelcomeNamesClient | ws-client-auth/server.js:28 | the welcome text starts with the client's name, and its id can be read back from it |
| WsServer.EchoRoundTrip | ws-client-auth/server.js:16-21 | the echo is `Echo from server: <data> (sent by <name>)`, and the data can be read back unchanged |
| WsServer.AcceptedWelcome | ws-client-auth/server.js:11-28 | built on the corrected `WsServer.Authenticate` (see Findings): an accepted connection is greeted with the authenticated table entry's name, and its id is the token |

## Left out

- Transport, connection upgrade and framing are not modelled. The socket.io and ws library internals, express static serving and the CORS options are left out too. The library's room implementation is replaced by the set primitives above.
- Timestamps (`toLocaleTimeString`) are omitted from payloads, and `console.log` is not modelled. Both are formatting or I/O.
- The `setTimeout` delays before a successful callback are not modelled. The callback outcome is the returned `Result`.
- Locks and concurrency are not modelled. Node runs every handler to completion on one event loop.
- Socket ids are not generated. The library issues a fresh id per connection. `Routing.Step` ignores a `connection` whose id is already live, and an event from a socket that is not live; neither can reach a handler.
- Handler arguments are taken as strings. A client could send a number or `undefined` as the room or name, or a `data` without `message`; the model does not cover that.
- An event whose `data` argument is absent or `null` is not modelled: `message: string` in `Command` cannot express it. In the code the unguarded `data.message` read throws a TypeError inside the listener (socket.io/server-enhanced.js:61, 76, 91, 134, 147, 189; socket.io/server.js:69, 113, 153). Nothing catches it, so the Node process exits, and a bare `emit('broadcast-message')` from one client stops the server for every connection.
- Routing.OnConnect: socket.io also puts every new socket into a room named by its own id. The model does not, so it promises nothing for a `join-room` or `chat-message` whose room name equals another live socket's id. In the code such an event also reaches that socket; in the model it does not. Library ids are random 20-character strings, so the fixed rooms `admin-room` and `support-room` are unaffected. The own-id room also matters for delivery: `socket.to(r)` leaves out every member of the room named by the sender's id. So if B has joined a room named by A's id, B misses A's later `user-joined` and `user-left` notices in every room, including the notice of A's disconnect. The model's `SocketTo` leaves out only the sender.
- Rooms.Nsp.SocketTo: socket.io's `socket.to(r)` leaves out every member of the room named by the sender's own id, not only the sender. The model leaves out only the sender, because that own-id room is not modelled (see the `Routing.OnConnect` line). A socket that has joined a room named by the sender's id is a recipient in the model but not in the code.
- socket.io drops payload keys whose value is `undefined` when it serialises. The model keeps such a field as `None`.
- socket.io deletes a room once it is empty. This is not modelled: `Members` of an empty or never-created room is the empty set either way.
- `generateSessionId` uses `Math.random` and `Date.now` with no collision check. The id is a parameter, and no freshness is promised: `CreateSession` overwrites an existing entry.
- Base64 decoding and `JSON.parse` in `decodeJWT` are abstracted. They are the parameter `decodePayload`. `Claims` takes each claim at one JSON type: `sub`, `name` and `role` as strings and `exp` as an integer. `decodePayload` is `None` wherever decoding, parsing or reading a claim would throw, for example a payload that parses to `null`, where `payload.sub` throws. A claim of another JSON type, such as a numeric `sub` or a string `exp`, is not modelled.
- `new URL` query parsing is abstracted. Query parameters are a map from name to the first value, already percent-decoded.
- `new URL` can throw a TypeError, for example for a request target `//?token=…` or a `Host` header `a b` (ws-client-auth/server.js:54; ws-client-auth/auth-middleware.js:13, 79). `Request.query` cannot express an unparsable URL, so this path is not modelled. In server.js, `authenticate` runs synchronously inside the `upgrade` listener with no `try` (ws-client-auth/server.js:31-35). The TypeError is then uncaught, and by the code as read it ends the Node process (not executed). In the middleware the exception escapes `authenticateByToken`, `extractSessionId` and `authenticateBySession` instead of reaching the callback.
- The `jwtSecret` option is not modelled. It is stored but never used.
- Multiple `Cookie` headers are not modelled. A cookie named `__proto__` is stored as an ordinary key. This cannot change the `sessionId` entry that is read.
- WsServer.EchoRoundTrip: the read-back holds for text frames only. The server receives `data` as a `Buffer`, and `${data}` decodes it as UTF-8. A binary frame that is not valid UTF-8 comes back with U+FFFD replacement characters, so its bytes cannot be read back. The model takes `data` as the already-decoded string.
- `sse/server.js`, `long-polling/server.js`, `ws-simple/server.js`, `web-worker/app.js` and `web-worker/worker.js` are not part of this model. They are timer, echo or browser I/O wrappers.

## Findings

| source | as written | input that shows it | evidently intended | confidence | as-written member | corrected member |
|---|---|---|---|---|---|---|
| ws-client-auth/auth-middleware.js:21-28 | `this.validTokens[token]` on a plain object also finds `Object.prototype` members, and `client.name` is the function's name | `?token=toString&username=toString`, or `?token=constructor&username=Object`, succeeds with a function as the client (`Auth.PrototypeTokenAccepted`) | only tokens that are own keys of the table authenticate | high; not executed | Auth.CheckTokenAsWritten | Auth.CheckToken |
| ws-client-auth/server.js:70-77 | the fixed `validTokens` object literal is indexed the same way, so the upgrade is accepted for a token outside the table | `?token=toString&username=toString` passes `authenticate` although `toString` is not in the table (`WsServer.PrototypeTokenBypass`) | only (user123, Alice), (admin456, Bob) and (guest789, Charlie) are accepted (`WsServer.AuthenticateAcceptsExactly`) | high; not executed | WsServer.AuthenticateAsWritten | WsServer.Authenticate |
