# A verified model of a small real-time chat server

The system is a small WhatsApp-style chat app: Express routes, a Mongo store, and Socket.IO for
live delivery. Users register and log in. They find each other by username and exchange short
text messages. A message is stored first; then it is pushed live to the sender's own page and,
if the receiver has a registered socket, to the receiver's page. Pages rebuild the partner list
and the open conversation from the store when they load.

The model covers the parts of the code that can be stated precisely:

- **Presence registry and live delivery** (`Presence`, from app.js). `onlineUsers` maps a
  username to a socket id. The `registerUser`, `disconnect` and `chatMessage` socket handlers
  are a class `Registry` with methods `Register`, `Disconnect` (the `for...in` scan with
  `delete` and `break`, as a loop) and `ChatMessage` (save, then emit). The pure functions
  `Registered`, `Disconnected` and `Fanout` specify those methods. Lemmas prove the registry
  properties about these functions.
- **Client filter and send guard** (`Client`, from public/js/chat.js). This covers the page-load
  registration, the arrival filter, the `sent`/`received` tag, and the submit handler, which
  trims the text and emits only a non-blank one. JavaScript's `trim` is modelled with the
  ECMAScript whitespace set. The page's DOM state is a class `ChatWindow`.
- **Chat page and routes** (`ChatRoutes`, from routes/chat.js). Partner derivation (counterparts,
  de-duplicated by first appearance in `createdAt` order, self removed, then intersected with
  known users). The two-way conversation query. The early-return chains of `/search`, `/send`
  and `/chat/start` behind `isAuthenticated`.
- **Profile update** (`ProfileRoutes`, from routes/profile.js). The ordered rejection checks, the
  update of the user record and the session, and the rename of the old username in every
  stored message. It also proves that the checks keep usernames and emails unique.

Supporting modules: `Common` (optional JavaScript values and truthiness, `filter`), `Store` (the
`Message` and `User` records, the schema's `required` check on save, sorting by `createdAt`, and
the `Database` class holding both collections), and `Http` (session, flash notices, responses and
the `isAuthenticated` guard).

Abstractions: the database is two sequences (messages, users). `createdAt` and the current time
are integer parameters. Whether the database acknowledges a write is a boolean parameter `up`.
A socket id is an opaque value: real ids are non-empty strings, so every one is truthy. An
undefined JavaScript value is `None`.

### Where the code behaves differently from what one might expect of it

- The arrival filter is `sender == currentUser || sender == chatWith || receiver == currentUser`,
  not an unordered-pair match on `{currentUser, chatWith}`. So messages outside the open pair are
  drawn into the open conversation (`Client.ShowsBeyondOpenPair`). The client keeps no contact
  list when messages arrive.
- The socket path does no validation of its own. Only the schema's `required` check applies
  (present, non-empty strings), so a text of blanks is stored (`Store.BlankTextIsSaved`). A
  rejected save emits nothing and reports nothing to the sender. The handler is `async` with no
  `try`/`catch`, so the rejection of `save()` is an unhandled promise rejection.
- `registerUser` with a missing or empty username changes nothing. It is not an unconditional
  overwrite.
- `disconnect` deletes only the first key that maps to the closing socket. If one socket
  registered several names, "register u on c, then disconnect c" can leave `u` mapped
  (`Presence.RegisterThenDisconnectCanMiss`): u is cleared exactly when no key enumerated
  before u maps to the socket (`Presence.RegisterThenDisconnectIff`). A repeated disconnect is
  then not a no-op. Both properties hold when at most one name maps to the socket
  (`Presence.RegisterThenDisconnect`, `Presence.DisconnectIdempotent`).

## Model

| member | source | states |
|---|---|---|
| `Store.Saved` | models/Message.js:3-20 | a save succeeds iff the store is up and sender, receiver and text are present non-empty strings; the saved document carries exactly those fields and the default `createdAt` |
| `Store.BlankTextIsSaved` | models/Message.js:12-15 | presence is the only check on text: a text of blanks is saved unchanged |
| `Store.SortByTime` | routes/chat.js:22-24 | the result is ascending by `createdAt` and a permutation of the query result |
| `Store.SortByTimeStable` | routes/chat.js:24 | the sort is stable: for every time, the messages created at that time keep their stored order |
| `Store.KnownUser` | routes/chat.js:92 | `User.findOne({ username })` finds a record: some stored user has that username; used by `ChatRoutes.Search` and `ChatRoutes.Start`, whose contracts state it |
| `Store.FindById` | routes/profile.js:30 | returns a record of the collection with that id, and nothing exactly when no record has it |
| `Store.Database.Save` | app.js:87 | on success exactly the saved document is appended to the messages; on rejection the store is unchanged |
| `Http.Guard` | routes/chat.js:7-12 | the request proceeds iff the session has a user; otherwise the answer is a redirect to `/login` |
| `Http.ChatWithUrl` | routes/chat.js:100 | the string passed to `res.redirect` is `/chat?with=` followed by the name (Express encodes it into the `Location` header) |
| `Presence.FirstHolderFrom` | app.js:103-104 | finds the first key, in enumeration order, whose value is the socket; none before it holds the socket, and none at all when it finds nothing |
| `Presence.Registered` | app.js:72-77 | the `registerUser` handler's effect on the table; specified by `Presence.RegisterOverwrites` and `Presence.RegisteredWellFormed` |
| `Presence.Disconnected` | app.js:103-108 | the `disconnect` handler's effect on the table; specified by `Presence.DisconnectRemovesAtMostOne`, `Presence.DisconnectUnknownIsNoop` and `Presence.DisconnectedWellFormed` |
| `Presence.Fanout` | app.js:89-96 | one emission when the receiver has no entry and two when it has one; the first goes to the sending socket, the second to the receiver's socket; every payload is the saved message |
| `Presence.RegisteredWellFormed` | app.js:74 | registration keeps every key listed once in enumeration order |
| `Presence.RegisterOverwrites` | app.js:72-77 | a truthy username maps to this socket whatever it mapped to before, and other names are unchanged; a missing or empty username leaves the registry unchanged |
| `Presence.LastRegistrationWins` | app.js:74 | after u to c1 and then u to c2, u maps to c2 |
| `Presence.DisconnectedWellFormed` | app.js:103-108 | disconnect keeps every key listed once in enumeration order |
| `Presence.DisconnectRemovesAtMostOne` | app.js:103-108 | disconnect removes at most one key: the first in enumeration order whose value is the socket; every remaining entry keeps its value |
| `Presence.DisconnectUnknownIsNoop` | app.js:103-109 | disconnecting a socket no entry maps to changes nothing |
| `Presence.StaleDisconnectKeepsNewSocket` | app.js:74 | once u to c1 is replaced by u to c2, disconnecting c1 leaves u mapped to c2 |
| `Presence.RegisterThenDisconnect` | app.js:72-109 | register u on c then disconnect c leaves u absent, provided no other name maps to c |
| `Presence.RegisterThenDisconnectIff` | app.js:103-108 | after registering u on c, disconnecting c clears u iff no key enumerated before u maps to c |
| `Presence.RegisterThenDisconnectCanMiss` | app.js:103-108 | counterexample to the unconditional version: if v already maps to c and is enumerated first, u stays mapped |
| `Presence.DisconnectIdempotent` | app.js:99-110 | a second disconnect of the same socket is a no-op when at most one name maps to it |
| `Presence.Registry.constructor` | app.js:66 | the registry starts empty and well formed |
| `Presence.Registry.LookupUser` | app.js:93 | the receiver's socket is found iff the name has an entry, and it is that entry's value |
| `Presence.Registry.Register` | app.js:72-77 | the new registry state is `Registered` of the old one, and stays well formed |
| `Presence.Registry.Disconnect` | app.js:99-110 | the loop's result is `Disconnected` of the old state (the first holder is deleted and the scan stops), and the registry stays well formed |
| `Presence.Registry.ChatMessage` | app.js:80-97 | a rejected save stores nothing and emits nothing; a successful one appends exactly the saved message, then emits `Fanout` of it; persist before emit: something is emitted iff the store changed, and every emission carries the one message appended to the store |
| `Presence.DeliveryOrder` | app.js:81-96 | corollary of `Store.Saved` and `Presence.Fanout`: after a successful save every emission carries the saved message, whose sender, receiver and text are the payload's; one emission iff the receiver is absent |
| `Presence.ReplacedSocketNotAddressed` | app.js:93-96 | after bob re-registers on c2, a message to bob goes to the sender's socket and to c2 only |
| `Presence.ReconnectTrace` | app.js:72-110 | trace: alice and bob register, bob reconnects, and the stale socket's disconnect leaves both entries in place |
| `Presence.LeaveTrace` | app.js:99-110 | trace continued: alice's disconnect removes alice and keeps bob on the new socket |
| `Client.Trim` | public/js/chat.js:45 | `String.prototype.trim`; specified by `Client.TrimIsSlice`, `Client.TrimEmptyIff` and `Client.TrimIdempotent` |
| `Client.TrimStart` | public/js/chat.js:45 | the result is a suffix of the input, all dropped characters are blanks, and the result does not start with one |
| `Client.TrimEnd` | public/js/chat.js:45 | the result is a prefix of the input, all dropped characters are blanks, and the result does not end with one |
| `Client.TrimBounds` | public/js/chat.js:49 | the trimmed text is the slice between a blank prefix and a blank suffix |
| `Client.TrimIsSlice` | public/js/chat.js:49 | the trimmed text is a contiguous piece of the input, cut off only blanks, and neither starts nor ends with a blank |
| `Client.TrimEmptyIff` | public/js/chat.js:45 | the trimmed text is empty iff every character of the input is a blank |
| `Client.TrimIdempotent` | public/js/chat.js:49 | trimming twice equals trimming once |
| `Client.Registration` | public/js/chat.js:8-10 | a registration is sent iff `currentUser` is truthy, and it carries `currentUser` |
| `Client.Outgoing` | public/js/chat.js:45-51 | an event is emitted iff the text has a non-blank character; it carries the trimmed text, `currentUser` as sender and the form's receiver |
| `Client.ChatWindow.OnChatMessage` | public/js/chat.js:13-35 | without a `.messages` container, or for a message the filter rejects, the transcript is unchanged; otherwise exactly one bubble (sender, text, tag) is appended after the earlier ones |
| `Client.ChatWindow.Submit` | public/js/chat.js:38-56 | no form, or a missing receiver or text input, sends nothing; otherwise it sends `Outgoing` of the input, and the text input is cleared iff something was sent |
| `Client.Shows` | public/js/chat.js:19-25 | the arrival filter; specified by `Client.ShowsIff`, `Client.ShowsOpenPair` and `Client.ShowsBeyondOpenPair` |
| `Client.TagOf` | public/js/chat.js:30 | the bubble's class; specified by `Client.TagSentIff` |
| `Client.ShowsSymmetric` | public/js/chat.js:19-25 | a message from a to b is drawn for a with b open and for b with a open |
| `Client.ShowsOpenPair` | public/js/chat.js:19-25 | every message of the open pair, in either direction, is drawn |
| `Client.ShowsBeyondOpenPair` | public/js/chat.js:19-25 | the filter is not a pair match: with bob open, alice sees bob's message to carol and carol's message to her, but not carol's to dave |
| `Client.ShowsIff` | public/js/chat.js:19-25 | a message is drawn iff its sender is the user or the open partner, or its receiver is the user |
| `Client.TagSentIff` | public/js/chat.js:30 | a bubble is tagged `sent` iff its sender is the logged-in user |
| `Client.PageLoadRegisters` | public/js/chat.js:8-10 | with a truthy user the server maps that user to the page's socket; otherwise the registry is untouched |
| `Client.SubmitThenDeliver` | public/js/chat.js:45-52 | end to end: a non-blank submit from alice to bob saves the trimmed text; the echo is drawn on alice's page tagged `sent`, and on bob's page tagged `received` unless bob is alice |
| `Client.IncompleteSubmitIsRejected` | public/js/chat.js:46-52 | a submit without a logged-in user or with an empty receiver is rejected by the schema, so nothing is stored or emitted |
| `ChatRoutes.Distinct` | routes/chat.js:27-32 | de-duplication has no repeats and keeps exactly the same names |
| `ChatRoutes.DistinctPrefix` | routes/chat.js:27-32 | first-appearance order: de-duplicating a prefix yields a prefix of the de-duplicated whole |
| `ChatRoutes.RawPartners` | routes/chat.js:27-33 | the de-duplicated counterparts of the user's messages in `createdAt` order; specified by `ChatRoutes.RawPartnersSpec` and `ChatRoutes.DistinctPrefix` |
| `ChatRoutes.ChatPartners` | routes/chat.js:36-40 | the raw partners that are existing usernames; never more names than users; specified by `ChatRoutes.ChatPartnersSpec` |
| `ChatRoutes.Conversation` | routes/chat.js:43-51 | the two-way conversation query; specified by `ChatRoutes.ConversationSpec` and `ChatRoutes.ConversationSymmetric` |
| `ChatRoutes.RawPartnersSpec` | routes/chat.js:22-33 | raw partners have no duplicates and never include the user; a name is a raw partner iff it is the counterpart, other than the user, of a message the user sent or received |
| `ChatRoutes.ChatPartnersSpec` | routes/chat.js:36-40 | a name is listed iff it is a raw partner and an existing username |
| `ChatRoutes.ConversationSpec` | routes/chat.js:43-51 | the conversation is ascending by `createdAt`, empty without a truthy `with`, and otherwise holds each message between the two users as often as stored and no other message |
| `ChatRoutes.ConversationSymmetric` | routes/chat.js:45-50 | both users get the same conversation |
| `ChatRoutes.ChatPage` | routes/chat.js:15-59 | without a session user: redirect to `/login` and no session change; otherwise `lastChatUrl` becomes the URL, and the page renders the conversation and the partner list |
| `ChatRoutes.Search` | routes/chat.js:77-100 | checks in order: guard, then self-search, then empty name, then unknown user; only a known other user redirects to the chat with that name |
| `ChatRoutes.SearchOpensOnlyKnownOthers` | routes/chat.js:82-100 | a search opens a chat iff the name is truthy, not one's own, and a known user; the target names the searched user |
| `ChatRoutes.SearchSelfBeforeEmpty` | routes/chat.js:82-90 | the self check runs first: a user with an empty name searching for the empty name is refused as a self-search |
| `ChatRoutes.Send` | routes/chat.js:109-128 | falsy text or receiver saves nothing; otherwise the message saved has the session user as sender, and the answer redirects to the chat with the receiver; a rejected save stores nothing; blank text is not refused |
| `ChatRoutes.Start` | routes/chat.js:137-148 | behind the guard, an unknown username is refused; a known one redirects to the chat with it |
| `ChatRoutes.StartDoesNotRefuseSelf` | routes/chat.js:141-148 | starting a chat with one's own existing name succeeds, though the search refuses it |
| `ProfileRoutes.CheckUpdate` | routes/profile.js:30-56 | checks in order: user not found, then username held by a different id, then email held by a different id; the update is accepted iff all pass |
| `ProfileRoutes.SetProfile` | routes/profile.js:59-63 | `findByIdAndUpdate` on the collection; the number of records is kept; specified by `ProfileRoutes.SetProfileSpec` |
| `ProfileRoutes.SetProfileSpec` | routes/profile.js:59-63 | after the update the user's record reads back with the new username and email; other records are unchanged |
| `ProfileRoutes.AcceptedUpdateKeepsUnique` | routes/profile.js:38-63 | with unique ids, an accepted update keeps usernames and emails unique |
| `ProfileRoutes.RenameSender` | routes/profile.js:72-75 | the first `updateMany`; the number of messages is kept |
| `ProfileRoutes.RenameReceiver` | routes/profile.js:76-79 | the second `updateMany`; the number of messages is kept |
| `ProfileRoutes.Rename` | routes/profile.js:72-80 | both updates, senders first; specified by `ProfileRoutes.RenameSpec` and `ProfileRoutes.RenameForgetsOld` |
| `ProfileRoutes.RenameSpec` | routes/profile.js:72-80 | every sender equal to the old name and every receiver equal to it becomes the new name; other fields, texts, times and the number of messages are kept |
| `ProfileRoutes.RenameForgetsOld` | routes/profile.js:72-80 | after renaming to a different name, no message mentions the old name |
| `ProfileRoutes.Update` | routes/profile.js:25-84 | a failed check changes neither store nor session and redirects to `/profile`; on success the record and the session hold the new username and email, messages are renamed iff the username changed, and the answer redirects to `/chat` |

## Left out

- Socket.IO transport: `io.to(...)`, the `connection` event, and the interleaving of different sockets' handlers. Events are modelled as one sequential trace.
- `for...in` order: usernames that are canonical array indices (such as `"0"` or `"42"`) are enumerated before all other keys. The model enumerates in insertion order.
- Inherited object keys: names such as `__proto__` or `constructor` behave differently on a plain JavaScript object. Every name is treated as an ordinary own key.
- Mongo queries, sorting and `updateMany` are modelled as sequence operations. Mongo leaves the order of equal timestamps unspecified; the model's sort keeps stored order (`Store.SortByTimeStable`), which is one of the orders Mongo may return.
- Database failures: only a failed save is modelled (socket handler and `/send`). Read failures and failed updates, which end in the handlers' `catch` redirects, are not modelled.
- The unhandled rejection in the `chatMessage` handler (app.js:80-87): a schema rejection or a database failure of `save()` rejects the handler's promise, and nothing handles it. What the runtime does then is not modelled. With default Node settings (since v15) the process exits, and `onlineUsers` is lost with it. The model treats the event as stored and emitted nowhere, with the registry kept.
- The `timestamp` field set at app.js:85 is not in the schema, so Mongoose drops it.
- `Date.now` / `new Date()` become the `now` parameter.
- routes/auth.js (signup, login, logout, hashing) is not part of this model. Neither is `GET /profile` (routes/profile.js:13-21), which only renders.
- Request fields: the body's `username` in `/chat/start` and the body's `username` and `email` in `/profile/update` are taken as present strings. Non-string query values (repeated parameters) are not modelled.
- Flash texts, EJS rendering, `console.log`, `innerHTML` (which does not escape the text), `scrollTop` and `querySelector`. The transcript is a sequence of (sender, text, tag).
- `String.prototype.trim` works on UTF-16 code units; the model works on Unicode scalar values.
- `ChatWindow`: one receiver field stands for both lookups. The filter reads the document's first `input[name='receiver']` and the submit handler reads the form's; the model assumes they are the same input.
- `ProfileRoutes.SetProfile`: updates every record with the id. This equals `findByIdAndUpdate` because Mongo ids are unique, an assumption `AcceptedUpdateKeepsUnique` states as a precondition.
