# Lets-Chat: a Dafny model of the presence and messaging core

Lets-Chat is a direct-messaging chat service built on Next.js, MongoDB and
Socket.io. This project models its core logic in Dafny and proves properties
of that model:

- **The realtime server** (`lib/socket.ts`), in `socket.dfy` and `presence.dfy`:
  - the presence registry `onlineUsers`, which maps a user id to that user's live socket ids;
  - the handshake check;
  - the per-connection events: connect, `getOnlineUsers`, `typing`, `sendMessage`, `markAsRead` and `disconnect`.

  `SocketServer` is a class whose fields are the registry, the table of accepted sockets and an outbox of emits. A "room" named after a user id is the set of live sockets owned by that user, read off the socket table. Every `emit` becomes an outbox entry holding the set of socket ids it reaches. `Valid()` says three things: the registry lists exactly the users that own a live socket, each entry equals that user's room, and no entry is empty. The registry updates are also pure functions in `Presence`. The class methods are proved equal to them. The lemmas about connect/disconnect histories are stated over those functions.
- **Message addressing and storage** (`app/api/messages/route.ts`, `models/Message.ts`), in `conversation.dfy`, `message_model.dfy` and `messages_route.dfy`:
  - the conversation id;
  - the schema's validity rules and defaults;
  - the history query, as a pure function over the stored messages;
  - the bulk mark-as-read. It is a loop over the store, proved equal to a pure function;
  - the POST validation ladder;
  - the three handlers, over a `MessageStore` class that holds the collection as a `seq`.
- **Bearer tokens** (`lib/auth.ts`), in `auth.dfy`. Token verification is an abstract parameter.
- **Accounts and user listing** (the signup, login and users routes), in `users.dfy`, `signup.dfy`, `login.dfy` and `users_route.dfy`. Responses use `PublicUser`, a type with no password field. So no response can contain a password.
- **The chat page** (`app/chat/page.tsx`), in `chat_client.dfy`:
  - the socket `message` reducer;
  - the send guard and the state changes of `handleSendMessage`, split at the awaited request into `BeginSend` and `FinishSend`.

Shared pieces:
- `common.dfy` holds `Option`, `Result`, the `Reply` of a route handler (status plus body or error message), and JavaScript truthiness of a string field.
- `text.dfy` holds JavaScript's `trim`, `startsWith` and its default string order.
- `sorting.dfy` is a stable insertion sort under a total preorder. It stands in for the database's `.sort`.

Parameters stand for everything outside the code's own logic:
- `verify` is `jwt.verify` as wrapped by `verifyToken`;
- `hash` is `bcrypt.hash`;
- `matches` is `bcrypt.compare`;
- `sign` is `jwt.sign`;
- `now` is the clock;
- `id` is the generated ObjectId;
- `hasToken` is the client's `localStorage` lookup;
- `PostOutcome` is how the client's `fetch` ended.

### Behaviour of the code worth knowing

- **Self-echo** (lib/socket.ts:177-180). `sendMessage` sends the live copy to the receiver's room and echoes it with `socket.emit`, which reaches only the originating socket. The sender's other tabs receive nothing. The two-tab scenario `Socket.TwoTabsSend` shows this: A's second tab `c2` receives nothing.
- **No content check on the socket path** (lib/socket.ts:159-181). `sendMessage` relays the content as given, neither checking nor trimming it. Only the POST handler of app/api/messages/route.ts trims it and refuses it when blank.
- **A limit of 0** (app/api/messages/route.ts:27, 46). `?limit=0` returns every matching message, because MongoDB treats `.limit(0)` as "no limit".
- **Who hears the presence notices** (lib/socket.ts:130-139, 191-201). `userOnline` goes to every other connected socket (`socket.broadcast`). `userOffline` goes to every socket still connected after the closing one has left (`io.emit`).

## Model

| member | source | states |
|---|---|---|
| `Text.TrimSlice` | app/api/messages/route.ts:91 | `trim()` keeps a contiguous slice of its input, drops only white space around it, and leaves no white space at either end |
| `Text.TrimStartSpec` | models/Message.ts:37 | the leading part `trim()` drops is all white space, and what remains is a suffix that does not start with white space |
| `Text.TrimEndSpec` | models/Message.ts:37 | the trailing part `trim()` drops is all white space, and what remains is a prefix that does not end with white space |
| `Text.TrimIdempotent` | models/Message.ts:34-39 | trimming an already trimmed string changes nothing, so stored content stays trimmed |
| `Text.TrimEmptyIff` | app/api/messages/route.ts:91-96 | the trimmed content is empty exactly when the content is all white space |
| `Text.LessTotal` | app/api/messages/route.ts:9 | the default sort order puts any two different ids one way or the other |
| `Text.LessAsymmetric` | app/api/messages/route.ts:9 | the default sort order never puts two ids both ways |
| `Sorting.Sort` | app/api/messages/route.ts:45 | the result is ordered under the given preorder and is a permutation of the input |
| `Auth.GetTokenFromRequest` | lib/auth.ts:21-27 | a token comes back exactly when the header starts with `"Bearer "`, and the header is that prefix followed by the token |
| `Auth.GetUserFromRequest` | lib/auth.ts:29-33 | definition: the verified payload of the bearer token, or null; its properties are stated by `Auth.NoTokenNoUser` and `Auth.VerifierDecides` |
| `Auth.BearerRoundTrip` | lib/auth.ts:23-25 | for every token `t`, the header `"Bearer " + t` yields `t` |
| `Auth.PrefixIsExact` | lib/auth.ts:22-26 | a missing header, a lower-case `bearer`, a bare `Bearer` without its space and another scheme all yield no token |
| `Auth.NoTokenNoUser` | lib/auth.ts:29-31 | without a non-empty token there is no user, whatever the verifier would answer (this includes `"Bearer "` with an empty token) |
| `Auth.VerifierDecides` | lib/auth.ts:12-19 | with a non-empty bearer token, the user is exactly the verifier's verdict, null on failure |
| `Conversation.CreateConversationId` | app/api/messages/route.ts:8-10 | the id is one of the two orders of the ids joined by `_`, one character longer than the two ids together |
| `Conversation.Symmetric` | app/api/messages/route.ts:8-10 | `createConversationId(a, b) == createConversationId(b, a)` |
| `Conversation.SmallerFirst` | app/api/messages/route.ts:9 | the smaller id comes first, whichever argument it was |
| `Conversation.Injective` | app/api/messages/route.ts:8-10 | ids without `_` give the same conversation id only for the same unordered pair |
| `Conversation.DistinctPeers` | app/api/messages/route.ts:8-10 | for a fixed user, different peers give different conversation ids |
| `MessageModel.Create` | models/Message.ts:15-55 | creation succeeds exactly when every required field is non-empty and the trimmed content has 1 to 1000 characters; the result is valid, has the trimmed content and copies the other fields; it is unread, has no `readAt`, and `createdAt` is the given time or else now; a failure names at least one field |
| `MessageModel.BlankContentRejected` | models/Message.ts:34-39 | content that is all white space is refused, on the `content` path |
| `MessagesRoute.Select` | app/api/messages/route.ts:39-44 | the `find` filter keeps exactly the stored messages of the conversation that are older than `before`, without inventing any |
| `MessagesRoute.Ascending` | app/api/messages/route.ts:44-45 | the matching messages are sorted by `createdAt`, and none is lost or added |
| `MessagesRoute.History` | app/api/messages/route.ts:44-47 | definition: the newest `limit` matches, oldest first, as after `reverse()` at line 63; its properties are stated by `HistoryLength`, `HistoryMatches`, `HistoryAscending` and `HistoryNewest` |
| `MessagesRoute.HistoryLength` | app/api/messages/route.ts:27 | history returns `limit` messages, or every match when there are fewer or the limit is 0 |
| `MessagesRoute.HistoryMatches` | app/api/messages/route.ts:39-44 | every returned message is stored, has the derived conversation id and is older than `before` when that is given |
| `MessagesRoute.HistoryAscending` | app/api/messages/route.ts:63 | history comes back in ascending `createdAt` order |
| `MessagesRoute.HistoryNewest` | app/api/messages/route.ts:44-47 | no matching message that was left out is newer than a returned one, so the newest are returned |
| `MessagesRoute.MarkReadSpec` | app/api/messages/route.ts:50-60 | afterwards the reader has no unread message in the conversation; matched messages get `readAt = now`; every other message, including those the reader sent, is untouched |
| `MessagesRoute.MarkReadIdempotent` | app/api/messages/route.ts:162-172 | a second bulk mark, at any time, changes nothing |
| `MessagesRoute.MarkRead` | app/api/messages/route.ts:50-60 | definition: the `updateMany` of GET (and PATCH, lines 162-172) over the whole collection; its properties are stated by `MarkReadSpec`, `MarkReadIdempotent` and `MarkReadKeepsValid`, and `MessageStore.UpdateManyRead` is proved equal to it |
| `MessagesRoute.MarkReadKeepsValid` | app/api/messages/route.ts:50-60 | bulk marking keeps every stored message valid under the schema |
| `MessagesRoute.ComposeRejections` | app/api/messages/route.ts:78-112 | the rejections come in order: 401 with no user, 400 for blank content, 400 for a missing receiver id, 404 for an unknown receiver |
| `MessagesRoute.ComposeMessage` | app/api/messages/route.ts:78-129 | definition: the POST ladder; its properties are stated by `ComposeRejections`, `ComposeSchemaRejected`, `ComposeAccepted` and `ComposeSuccess` |
| `MessagesRoute.ComposeAccepted` | app/api/messages/route.ts:114-129 | an authenticated send with non-blank content of at most 1000 characters once trimmed, whose receiver is found with a non-empty username, is answered 201 with exactly the message built from the token's user, the receiver's record, the trimmed content and `createConversationId`, unread and created now |
| `MessagesRoute.ComposeSchemaRejected` | app/api/messages/route.ts:114-136 | past the four rejections, a draft the schema refuses (an empty sender id or username, an empty receiver username, or content too long once trimmed) is answered 500 `Failed to send message` |
| `MessagesRoute.ComposeSuccess` | app/api/messages/route.ts:114-129 | a successful send returns 201 and a valid message with the trimmed content; sender and sender username come from the token, the receiver username from the receiver's record, and the conversation id from `createConversationId`; the message is unread and created now |
| `MessagesRoute.MessageStore.Save` | app/api/messages/route.ts:125 | saving appends exactly the message |
| `MessagesRoute.MessageStore.UpdateManyRead` | app/api/messages/route.ts:50-60 | the loop over the store leaves it equal to the bulk mark-as-read of its old contents |
| `MessagesRoute.Get` | app/api/messages/route.ts:12-73 | 401 or 400 leave the store unchanged; otherwise the reply is the history of the store as it was before the mark, and the store is then bulk-marked for the caller |
| `MessagesRoute.Post` | app/api/messages/route.ts:76-137 | the reply is the validation ladder's answer; success appends exactly that message, and any rejection stores nothing |
| `MessagesRoute.Patch` | app/api/messages/route.ts:140-182 | 401 with no user and 400 with no conversation id leave the store unchanged; otherwise the caller's messages in that conversation are marked read and the reply is 200 |
| `Users.IndexOf` | app/api/users/route.ts:31 | the lookup finds the first user with the key, and finds none only when no user has it |
| `Users.FindSpec` | app/api/auth/login/route.ts:24 | a found user is stored and has the key; nothing is found only when no stored user has it |
| `Users.SetPresenceSpec` | app/api/users/route.ts:65-72 | only the caller's record changes: it gets the given `isOnline` and `lastSeen = now`, and keeps its other fields |
| `Users.SetPresence` | app/api/users/route.ts:65-72 | definition: the `findByIdAndUpdate` of the caller's record; its properties are stated by `Users.SetPresenceSpec`, and `UserStore.FindByIdAndUpdate` is proved equal to it |
| `Users.UserStore.FindByIdAndUpdate` | app/api/users/route.ts:65-72 | the search loop, then the update, leaves the store equal to the presence update and returns the updated record, or null when none has that id |
| `Users.UserStore.Add` | app/api/auth/signup/route.ts:49 | saving a new user appends exactly that record |
| `Signup.Register` | app/api/auth/signup/route.ts:13-61 | a missing field gives 400 first; a password under 6 characters gives 400 next; success gives 201 and a record with the given username and email, the hashed password (not the plaintext) and no clash with any stored user; and a request with all fields, a long enough password and no clash always succeeds with exactly that record |
| `Signup.DuplicateRejected` | app/api/auth/signup/route.ts:28-37 | an existing user with the same email or the same username gives 400 |
| `Signup.RegisterKeepsUnique` | app/api/auth/signup/route.ts:28-49 | signup keeps emails and usernames unique across the store |
| `Signup.Post` | app/api/auth/signup/route.ts:6-69 | rejections store nothing; success stores exactly one record and answers 201 with it minus the password |
| `Login.MissingFieldFirst` | app/api/auth/login/route.ts:16-21 | a missing email or password gives 400 before any lookup, whatever the store holds |
| `Login.FailuresIndistinguishable` | app/api/auth/login/route.ts:24-41 | an unknown email and a wrong password both give the identical 401 `Invalid credentials` |
| `Login.SuccessSpec` | app/api/auth/login/route.ts:44-62 | success gives 200; a stored user with that email accepts the password; the token is signed over that user's id, email and username; the user goes back without the password |
| `Login.FirstMatchLogsIn` | app/api/auth/login/route.ts:24-62 | if the first user with the email accepts the password, the login succeeds with that user |
| `Login.Login` | app/api/auth/login/route.ts:13-62 | definition: the login ladder; its properties are stated by `MissingFieldFirst`, `FailuresIndistinguishable`, `SuccessSpec` and `FirstMatchLogsIn` |
| `UsersRoute.Others` | app/api/users/route.ts:24-25 | the query keeps exactly the users other than the caller, without passwords |
| `UsersRoute.Directory` | app/api/users/route.ts:24-26 | the listing is in the route's sort order and is a permutation of the other users |
| `UsersRoute.DirectorySpec` | app/api/users/route.ts:23-28 | the listing holds exactly the other users; online users come first, then the most recently seen |
| `UsersRoute.CallerNotListed` | app/api/users/route.ts:24 | the caller never appears in their own listing |
| `UsersRoute.GetSpec` | app/api/users/route.ts:7-40 | 401 without a user; only `all` exactly equal to `"true"` gives the listing; otherwise 404 exactly when the caller's record is gone, and else that record |
| `UsersRoute.Get` | app/api/users/route.ts:7-48 | definition: the GET handler's reply; its properties are stated by `UsersRoute.GetSpec`, `DirectorySpec` and `CallerNotListed` |
| `UsersRoute.Patch` | app/api/users/route.ts:50-75 | 401 changes nothing; otherwise only the caller's record is stamped, and the reply is that record without password, or null |
| `Presence.AddUserSocket` | lib/socket.ts:70-75 | afterwards the user is a key whose set holds the socket; the set grows by that socket or is created as `{s}`; every other entry is unchanged; no entry is ever left empty |
| `Presence.RemoveUserSocket` | lib/socket.ts:77-87 | the flag is set exactly when the user's set empties; the key is then deleted; otherwise the socket is removed from the set; an unknown user leaves the map unchanged; no empty entries remain |
| `Presence.RemoveReportsOffline` | lib/socket.ts:77-87 | on a registry without empty sets, remove reports true exactly when it removed the user's last socket, that is exactly when the user leaves the registry |
| `Presence.StepNotifies` | lib/socket.ts:130-139 | one connect or disconnect flips a user's presence exactly when it sends that user's online or offline notice; an online notice always marks going online, an offline notice going offline |
| `Presence.NotificationsAreTransitions` | lib/socket.ts:191-201 | over any history, with any number of sockets per user, a user's online plus offline notices equal that user's presence transitions; online minus offline notices equal the net change in presence |
| `Presence.TwoTabsExample` | lib/socket.ts:70-87 | sockets c1, c2 of A: the first add brings A online; removing c1 reports false; removing c2 reports true and empties the registry |
| `Socket.Authenticate` | lib/socket.ts:104-118 | a missing or empty token is refused with `Authentication error`; a token the verifier refuses gets `Invalid token`; otherwise the identity is the verifier's payload |
| `Socket.SendFanOut` | lib/socket.ts:177-180 | a live message reaches each socket in the receiver's room once and the originating socket once more, and no other socket |
| `Socket.SocketServer.OnlineMeansConnected` | lib/socket.ts:89-91 | the online snapshot holds exactly the users that own a live socket |
| `Socket.SocketServer.GetOnlineUserIds` | lib/socket.ts:89-91 | definition: the registry's key set; `OnlineMeansConnected` states that it is exactly the users owning a live socket |
| `Socket.JoinKeepsConsistent` | lib/socket.ts:127-131 | registering a new socket under its user (joining the room and `addUserSocket`) keeps every registry entry equal to that user's room, with no empty entry and no live socket of an unregistered user |
| `Socket.LeaveKeepsConsistent` | lib/socket.ts:191-194 | removing a closing socket from its room and from the registry keeps the same correspondence |
| `Socket.RoomAfterJoin` | lib/socket.ts:127 | a new socket joins exactly the room of its own user |
| `Socket.RoomAfterLeave` | lib/socket.ts:191-194 | a closed socket leaves its room and no other |
| `Socket.SocketServer.RoomIsEntry` | lib/socket.ts:127 | the room named after a user is that user's registry entry, and empty when the user has none |
| `Socket.SocketServer.AddUserSocket` | lib/socket.ts:70-75 | the in-place update leaves the registry equal to `Presence.AddUserSocket` of the old one |
| `Socket.SocketServer.RemoveUserSocket` | lib/socket.ts:77-87 | the in-place update and its flag equal `Presence.RemoveUserSocket` of the old registry |
| `Socket.SocketServer.OnConnection` | lib/socket.ts:120-142 | the socket joins its room and is registered; `userOnline` goes to every previously connected socket exactly when the user had no entry before; the new socket gets the snapshot, which includes its user; the invariant is kept |
| `Socket.SocketServer.Connect` | lib/socket.ts:104-142 | the outcome is the handshake's; a refused socket changes nothing; an accepted one is registered with its verified identity, `userOnline` goes to the previously connected sockets exactly when that user had no entry, and the new socket gets the snapshot |
| `Socket.SocketServer.OnGetOnlineUsers` | lib/socket.ts:145-147 | the asking socket alone gets the current key set; nothing else changes |
| `Socket.SocketServer.OnTyping` | lib/socket.ts:150-156 | the receiver's room gets `typing`, naming the authenticated sender's id and username; the registry is not touched |
| `Socket.SocketServer.OnSendMessage` | lib/socket.ts:159-181 | the live copy is unread and takes sender and sender username from the socket's identity, never from the payload; it goes to the receiver's room and to the originating socket; the registry is not touched |
| `Socket.SocketServer.OnMarkAsRead` | lib/socket.ts:184-189 | the original sender's room gets `messageRead` with the authenticated user as `readBy`; the registry is not touched |
| `Socket.SocketServer.OnDisconnect` | lib/socket.ts:191-202 | the socket leaves its room and the registry; the remaining sockets get `userOffline` exactly when the remove reported it, which is exactly when this was the user's last socket; the invariant is kept |
| `Socket.SocketServer.Dispatch` | lib/socket.ts:144-202 | every inbound event keeps the invariant and only adds to the outbox; only `disconnect` changes the registry or the socket table |
| `Socket.TwoTabsFirst` | lib/socket.ts:120-142 | B connects on c3, then A on c1: the exact emits are B's announcement to nobody, B's snapshot `{B}`, A's announcement to c3 and A's snapshot `{A, B}` |
| `Socket.TwoTabsSecond` | lib/socket.ts:120-142 | A's second socket c2 is registered under A and gets the snapshot `{A, B}` as the only emit; no one is told |
| `Socket.TwoTabsSend` | lib/socket.ts:159-181 | A sends to B from c1: B's c3 and the originating c1 each receive the live message once, and A's other tab c2 receives nothing |
| `Socket.TwoTabsCloseOne` | lib/socket.ts:191-201 | closing c1 while c2 stays open keeps A registered with `{c2}` and emits nothing |
| `Socket.TwoTabsCloseLast` | lib/socket.ts:191-201 | closing c2, A's last socket, leaves only B registered; the single emit is `userOffline` for A, sent to c3 |
| `ChatClient.HasId` | app/chat/page.tsx:81 | the id test holds exactly when some listed message has that id |
| `ChatClient.OnMessage` | app/chat/page.tsx:79-85 | definition: the `message` reducer; its properties are stated by `OnMessageSpec`, `OnMessageIdempotent` and `OnMessageKeepsUnique`, and `ChatPage.ReceiveMessage` is proved equal to it |
| `ChatClient.OnMessageSpec` | app/chat/page.tsx:79-85 | a message whose id is already listed leaves the list unchanged; any other is appended at the end, and the earlier order is kept |
| `ChatClient.OnMessageIdempotent` | app/chat/page.tsx:79-85 | delivering the same message twice gives the same list as once |
| `ChatClient.OnMessageKeepsUnique` | app/chat/page.tsx:79-85 | if ids were unique before, they are unique after |
| `ChatClient.ChatPage.ReceiveMessage` | app/chat/page.tsx:78-86 | the socket handler leaves the list equal to the reducer applied to the old list |
| `ChatClient.ChatPage.BeginSend` | app/chat/page.tsx:124-136 | a blank draft or a send in flight changes nothing; a missing token redirects without changes; otherwise sending starts, the error is cleared and the trimmed draft is posted |
| `ChatClient.ChatPage.FinishSend` | app/chat/page.tsx:137-173 | only a created message clears the draft, appends the message and relays the content on a connected socket; a failure sets the server's error or the default message and keeps the draft; `sending` is false either way |

## Left out

- Socket.io transport, server construction, CORS and the `initSocketServer`/`getIO` singleton (lib/socket.ts:93-102, 205-210) are transport, not logic. Rooms are derived from the socket table, and emits are outbox entries.
- `Socket.SocketServer.OnConnection`: an accepted socket without a user returns early (lib/socket.ts:122). `sendMessage` has an "unauthenticated" error branch (lib/socket.ts:160-163). Both are unreachable, because the handshake sets the user on every accepted socket. The `error` event is therefore never emitted, and the model has none.
- Payloads without the expected fields make a socket handler throw, and the model does not cover them. Neither does it cover the handlers' 500 replies from database or connection failures, JSON fields of a non-string type, or ids that are not valid ObjectIds. These are I/O and runtime errors of the libraries.
- `Socket.SocketServer.OnConnection`: the `onlineUsers` snapshot is a set. The array order (Map insertion order) is not modelled.
- `Socket.SocketServer.OnSendMessage`: the live message's `_id` and `createdAt` come from one clock reading `now`. The source reads the clock twice and formats `createdAt` as an ISO string. The `_id` is a millisecond timestamp and is not claimed to be unique.
- JWT signing and verification, token expiry (`expiresIn: '7d'`) and bcrypt hashing and comparison are foreign crypto. They are the parameters `verify`, `sign`, `hash` and `matches`.
- `lib/mongodb.ts` (connection caching and logging) and `next.config.ts` (build configuration) are I/O and configuration.
- `MessagesRoute.Get` takes `limit` and `before` already parsed. `parseInt` producing NaN, and a `before` that is not a valid date, are not modelled.
- Database sorts do not fix the order of equal keys. `Sorting.Sort` fixes a stable order, so answers that differ only in the order of equal keys are not covered.
- String lengths and the default string order are taken over Unicode scalar values. JavaScript counts and compares UTF-16 code units. The two differ only outside the Basic Multilingual Plane.
- models/User.ts is not part of this model. `Signup.Register` assumes a new user receives the defaults `isOnline = false` and `lastSeen = now`. No unique index on email or username is assumed; `Signup.RegisterKeepsUnique` proves that signup itself keeps them unique.
- `UsersRoute.Patch` models an absent `isOnline` as leaving the field unchanged, which is how Mongoose drops undefined update keys. A value that is not boolean would be a cast error, and it is not modelled.
- The persisted `isOnline`/`lastSeen` are set by client PATCH calls. They are not coupled to the socket registry, and the model keeps them apart.
- Chat page: the model leaves out:
  - rendering, scrolling and `formatTime`;
  - `localStorage`, which is reduced to `hasToken`;
  - router redirects, which are reduced to `LoginRedirect`;
  - `fetch`, which is reduced to `PostOutcome`;
  - `fetchMessages`;
  - the `joinRoom`/`leaveRoom` emits;
  - the `connect`, `disconnect`, `userJoined`, `userLeft` and `error` handlers.

  The server has no handlers for the room emits, and its history request needs a `receiverId` that the page does not send. So no room behaviour is modelled.
- Async interleaving of handlers is not modelled. Each handler runs to completion. The one interleaving that matters on the page is a send still in flight, and the split into `BeginSend`/`FinishSend` keeps it.
