# Theramine front-end session core, modelled in Dafny

This project models the parts of the Theramine therapy-chat client whose
behaviour can be stated exactly:

- **Room identifiers** (`src/utils/roomUtils.js`). A room for a user and a
  therapist is `room_<lo>_<hi>`, where `lo` and `hi` are the two ids in
  JavaScript string order. The module also has a parser that removes the
  first `room_` and splits on every `_`, the validator regex, and two
  participant queries.
- **The socket provider** (`src/context/SocketContext.jsx`). This covers the
  `connection` message chosen when the socket opens, and the `onmessage`
  handler. The handler is modelled as a pure reducer over `pendingRequest`,
  `acceptedRequest`, `messages` and `userDID` for the connected wallet.
- **The session-request popup** (`src/ui/SessionRequestPopup.jsx`). This is
  the therapist's accept/reject answer: one outbound message, navigation to
  the chat page on accept, and clearing of the pending request.
- **The IPFS chat archive service** (`src/services/ipfsService.js`). Record
  and metadata construction, the listing filter, and the cache-first
  `getMessage`. They run against an abstract pinning store: a map from hash
  to pinned JSON and metadata, which may be unreachable.

Files:

- `Wrappers.dfy`: `Option` and `Result`.
- `JsStrings.dfy`: the JavaScript string semantics the room code relies on. These are the `<` order, `[a, b].sort()`, `split` on one character, and `replace` of the first occurrence.
- `Decimal.dfy`: integer-to-decimal rendering and its inverse.
- `RoomUtils.dfy`, `SocketContext.dfy`, `SessionRequestPopup.dfy`: one module per source file.
- `Json.dfy`: JSON values, truthiness, and object spread.
- `IpfsService.dfy`: the archive service.

Time (`Date.now()`, `new Date().toISOString()`), `crypto.randomUUID()` and
the hash the store assigns on upload are parameters of the operations that
use them. Strings are `seq<char>`, and string order compares character
codes. Absent JSON fields are `None`. A template literal renders an absent
field as `undefined`.

The repository builds room ids in more than one format, and the formats are
not claimed to agree. Two are modelled as written: `generateRoomId` builds
`room_<lo>_<hi>`, and the popup builds `<user>_<therapist>_<Date.now()>`
with no sorting and no prefix. The `<user>-<therapist>` id built in
`Layout.jsx` is left out together with that file.

## Model

| member | source | states |
|---|---|---|
| JsStrings.LexLessEqTotal | src/utils/roomUtils.js:13 | String order is total: any two ids compare, and two ids each at most the other are equal |
| JsStrings.SortPair | src/utils/roomUtils.js:13 | Sorting two ids gives a permutation of them in non-decreasing order |
| JsStrings.Split | src/utils/roomUtils.js:23 | `split('_')` gives one more part than there are separators; no part contains `_`; joining the parts with `_` gives back the input |
| JsStrings.SplitJoin | src/utils/roomUtils.js:23-24 | Splitting undoes joining separator-free pieces, so the parts of a string are unique |
| JsStrings.ReplaceFirst | src/utils/roomUtils.js:23 | `replace('room_', '')` removes only the first occurrence, wherever it is, and leaves a string without one unchanged |
| RoomUtils.GenerateRoomId | src/utils/roomUtils.js:11-15 | The room id is `room_` + the smaller id + `_` + the larger id in string order |
| RoomUtils.GenerateRoomIdSymmetric | src/utils/roomUtils.js:11-15 | Swapping the two ids gives the same room id |
| RoomUtils.ParseRoomId | src/utils/roomUtils.js:22-31 | Parsing throws exactly when the id, with its first `room_` removed, does not contain exactly one `_`; on success that remainder is the two separator-free segments joined by `_` |
| RoomUtils.ParseRoomIdExactly | src/utils/roomUtils.js:22-31 | An id parses into `(u, t)` if and only if its remainder is `u_t` with no `_` in `u` or `t` |
| RoomUtils.IsValidRoomId | src/utils/roomUtils.js:38-40 | An id matches `^room_[^_]+_[^_]+$` exactly when it starts with `room_` and the rest holds exactly one `_`, which is neither its first nor its last character |
| RoomUtils.PatternAsCount | src/utils/roomUtils.js:38-40 | The pattern's segment-by-segment reading and the counting reading accept the same ids, in both directions |
| RoomUtils.ValidRoomIdParses | src/utils/roomUtils.js:22-40 | Every id matching `^room_[^_]+_[^_]+$` parses into its two non-empty segments |
| RoomUtils.ParsedNotAlwaysValid | src/utils/roomUtils.js:22-40 | The converse fails: `room__x` parses into `("", "x")` but does not match the pattern |
| RoomUtils.GenerateThenParse | src/utils/roomUtils.js:11-31 | For ids without `_`, parsing a generated room id gives the two ids back in sorted order, not by role |
| RoomUtils.GeneratedValidIff | src/utils/roomUtils.js:11-40 | A generated room id is valid if and only if both ids are non-empty and contain no `_` |
| RoomUtils.GetOtherParticipant | src/utils/roomUtils.js:48-51 | Fails exactly when parsing fails, so the parse error propagates |
| RoomUtils.AnswerIsParticipant | src/utils/roomUtils.js:48-66 | Whoever asks, a successful answer is itself a participant of the room |
| RoomUtils.OtherOfOutsider | src/utils/roomUtils.js:48-51 | Any caller other than the first segment, including one not in the room, is answered with the first segment |
| RoomUtils.OtherOfGenerated | src/utils/roomUtils.js:11-51 | In a generated room, the other participant of either id is the other id, whatever the argument order |
| RoomUtils.ParticipantsOfParsed | src/utils/roomUtils.js:59-66 | For an id that parses into two segments, the participants are exactly those two segments |
| RoomUtils.IsParticipantGenerated | src/utils/roomUtils.js:59-66 | In a generated room, exactly the two ids are participants |
| RoomUtils.IsParticipant | src/utils/roomUtils.js:59-66 | A candidate is a participant exactly when the id, with its first `room_` removed, has one `_` and the candidate is the `_`-free text before or after it; ids that fail to parse admit nobody |
| RoomUtils.SegmentsAroundSeparator | src/utils/roomUtils.js:22-31 | With exactly one `_`, the `_`-free strings standing before or after it are exactly the two segments |
| RoomUtils.OtherIsParticipant | src/utils/roomUtils.js:48-66 | For a participant of a parsable room, the counterpart exists, is a participant, and differs unless both segments are equal |
| SocketContext.OnOpen | src/context/SocketContext.jsx:17-43 | Without a truthy wallet address no connection is made. Otherwise the message announces the address. It is the user shape (phone number as `userId`, plus `idToken`) if and only if the phone is verified and `idToken` and the phone number are truthy |
| SocketContext.ChatEntryOf | src/context/SocketContext.jsx:74-80 | A chat entry keeps the event's text and time and names one of the event's two parties as sender: the `userId` whenever that is not this wallet (so also when the wallet is neither party), else the `therapistId`. It names this wallet only when the event gives the wallet both roles |
| SocketContext.OnMessage | src/context/SocketContext.jsx:46-84 | Each field changes only under its own test: `userDID` on a DID acknowledgement; `pendingRequest` on `appoinment_request` addressed to this therapist; `acceptedRequest` on `appoinment_fixed` naming this wallet; one chat entry appended on `type: chat`. Any other field keeps its value |
| SocketContext.Step | src/context/SocketContext.jsx:17-84 | Without a connected wallet an event changes nothing. With one, each of `userDID`, `pendingRequest` and `acceptedRequest` either keeps its value or takes the event's, and the chat list keeps its earlier entries and grows by at most one |
| SocketContext.BranchesIndependent | src/context/SocketContext.jsx:50-83 | One event can record a DID, become the pending request and append a chat entry at once |
| SocketContext.RunWithoutWallet | src/context/SocketContext.jsx:17 | Without a connected wallet, no sequence of events changes the state |
| SocketContext.RunMessages | src/context/SocketContext.jsx:74-83 | After any event sequence, the chat list is the earlier list followed by one entry per chat event, in arrival order |
| SocketContext.RunPending | src/context/SocketContext.jsx:59-64 | After any event sequence, the pending request is the last request addressed to this wallet, or the earlier one if there was none |
| SessionRequestPopup.HandleResponse | src/ui/SessionRequestPopup.jsx:11-38 | With no socket or no pending request, nothing happens. On a socket still connecting, `send` throws: nothing is sent or navigated to and the request stays pending. Otherwise exactly one message is handed to the socket for the request's user and therapist. It carries the wire tag `appoinment_fixed` if and only if the request was accepted, and `appoinment_rejected` otherwise. Only on acceptance does navigation go to `/chat/` + the room id sent. The pending request is cleared |
| SessionRequestPopup.RetryAfterConnect | src/ui/SessionRequestPopup.jsx:11-38 | A click that throws on a connecting socket loses nothing: the request stays pending, and a click once the socket is open answers and clears it |
| SessionRequestPopup.AcceptedRoomId | src/ui/SessionRequestPopup.jsx:14 | The accepted room id begins with the user's id and `_`, and holds two `_` more than the two ids together |
| SessionRequestPopup.AcceptedRoomIdsDistinct | src/ui/SessionRequestPopup.jsx:14 | For `_`-free ids, accepting the same request at two different times gives two different room ids |
| SessionRequestPopup.AcceptedCanMatchGenerated | src/ui/SessionRequestPopup.jsx:14 | The two room-id formats can collide: user `room`, therapist `0` at time 5 gives `room_0_5`, which is also the generated room of `0` and `5` |
| SessionRequestPopup.AcceptedRoomIdSegments | src/ui/SessionRequestPopup.jsx:14 | The accepted room id splits into user, therapist and time in that order, and the time reads back as `Date.now()` |
| SessionRequestPopup.RequestThenAccept | src/ui/SessionRequestPopup.jsx:11-37 | A request addressed to this therapist becomes pending. Accepting it sends the fixed message for that user and this therapist, navigates to that room, and clears only the pending request |
| Decimal.NatToDecimal | src/services/ipfsService.js:93 | A count's decimal rendering is non-empty, all digits, and starts with `0` only for zero |
| Decimal.DecimalInjective | src/ui/SessionRequestPopup.jsx:14 | Different numbers render to different decimal strings |
| Decimal.DecimalRoundTrip | src/services/ipfsService.js:93 | The decimal rendering of a count reads back as the count |
| IpfsService.StampMessage | src/services/ipfsService.js:21-25 | The stored message has the caller's fields, with `timestamp` and `id` overridden by the fresh values |
| IpfsService.StoreMessage | src/services/ipfsService.js:19-48 | Succeeds if and only if the store is reachable. On success the cache maps the returned hash to exactly the uploaded record. The pin is named `chat-message-<id>`, tagged `chat-message`, carries the caller's `roomId` and `sender` exactly when given, and carries the record's `timestamp`. No other pin changes. A failure is rethrown and changes nothing |
| IpfsService.GetMessage | src/services/ipfsService.js:55-70 | A cache hit returns the cached record and changes nothing. A miss returns the fetch and caches it under the hash. A failed fetch is rethrown with the cache unchanged |
| IpfsService.CacheTransparent | src/services/ipfsService.js:57-65 | While every cached record equals the stored one, `getMessage` answers what a fetch answers |
| IpfsService.StoreThenGetMessage | src/services/ipfsService.js:19-65 | A stored message is read back from the cache even when the store has become unreachable |
| IpfsService.GetMessageIdempotent | src/services/ipfsService.js:57-65 | A second read returns the same record and changes nothing |
| IpfsService.SnapshotRoundTrip | src/services/ipfsService.js:80-85 | A room snapshot decodes back from its JSON form |
| IpfsService.StoreChatRoom | src/services/ipfsService.js:78-105 | The upload holds the room id, the messages unchanged and their count. Its metadata is named `chat-room-<roomId>`, tagged `chat-room`, and holds the room id, the decimal count and the snapshot's own `lastUpdated`. The record has exactly the four snapshot keys. No other pin changes and the cache is untouched |
| IpfsService.StoreThenGetChatRoom | src/services/ipfsService.js:78-116 | A stored snapshot reads back with the same room, messages and count |
| IpfsService.GetChatRoom | src/services/ipfsService.js:112-120 | Getting a chat room is a plain fetch that leaves the service unchanged |
| IpfsService.GetChatRoomIgnoresCache | src/services/ipfsService.js:112-116 | The answer does not depend on the cache |
| IpfsService.ChatFileFilter | src/services/ipfsService.js:129-137 | The filter always has `type = chat-room`, and has a `roomId` key if and only if the argument is truthy |
| IpfsService.ListChatFiles | src/services/ipfsService.js:127-145 | The listing holds exactly the pins tagged `chat-room` (and, for a truthy room id, tagged with that room id). It fails only if the store is unreachable |
| IpfsService.StoredRoomIsListed | src/services/ipfsService.js:78-140 | A stored snapshot appears in the listing of all rooms and of its own room |
| IpfsService.LogEntry | src/services/ipfsService.js:157-160 | A log entry keeps every field and sets `ipfsHash` to its own value when truthy, else `null` |
| IpfsService.LogEntriesAppend | src/services/ipfsService.js:157-160 | Logging two batches of messages gives the two logs one after the other |
| IpfsService.CreateChatLog | src/services/ipfsService.js:153-182 | The uploaded log has exactly the keys `roomId`, `messages`, `createdAt` and `totalMessages`. It holds the entries in order and `totalMessages` = the count. Its metadata is named `chat-log-<roomId>-<Date.now()>` and holds the tag `chat-log`, the room, the decimal count and `createdAt`. No other pin changes, the cache is untouched, and failures are rethrown |
| IpfsService.ChatLogNotListed | src/services/ipfsService.js:129-170 | A chat log never appears in the chat-room listing |
| IpfsService.OperationsKeepCacheCoherent | src/services/ipfsService.js:19-145 | Every operation keeps each cached record equal to the stored one, provided uploads get unused hashes |
| IpfsService.StoreMessageKeepsCoherent | src/services/ipfsService.js:27-40 | Storing a message caches exactly the record it pins, so a coherent cache stays coherent under any hash |
| IpfsService.FreshPinKeepsCoherent | src/services/ipfsService.js:87-97 | Adding a pin under an unused hash while leaving the cache alone keeps the cache coherent |
| IpfsService.ListingGrows | src/services/ipfsService.js:78-140 | Storing a snapshot under an unused hash removes nothing from any listing |

## Left out

- The WebSocket and React lifecycle are left out: socket creation, `onclose`/`onerror` logging, effect cleanup and re-running.
- SessionRequestPopup.HandleResponse: the socket's ready state at the click is a parameter. When each state occurs is not modelled. The provider re-creates its socket whenever the wallet or phone-auth values change (`src/context/SocketContext.jsx:99`) and never sets it back to `null` (lines 94-98), so a click can meet a socket that is connecting, closing or closed. An answer handed to a closing or closed socket counts as sent here, although the browser discards it.
- Inbound event fields are modelled as optional strings. A non-string JSON value in `did`, `userId` and the like is not modelled. `JSON.parse` (`src/context/SocketContext.jsx:47`) is left out, since events arrive decoded. A payload that is not JSON, or is JSON `null`, makes the handler throw before any branch runs, so such a payload changes nothing.
- Clicking outside the popup (`src/ui/SessionRequestPopup.jsx:41`) clears the pending request without sending anything. This is dialog wiring and is not modelled; the popup's render guard (line 9) is the predicate `Renders`.
- Pinata is an abstract store. Content addressing is not modelled: the hash an upload receives is a parameter. Every transport or SDK failure is one `Unreachable` error. `getMessage` and `getChatRoom` reject a hash the store does not hold.
- IpfsService.ListChatFiles: returns the matching hashes as a set, not the SDK's ordered file list. It assumes the filter matches a pin whose keyvalues contain every filter pair, and that the listing is complete, with no page limit; `StoredRoomIsListed` and `ListingGrows` rest on both assumptions.
- JSON numbers are integers, since floating point is not modelled. ISO timestamps and UUIDs are opaque strings.
- String order compares `char` values. This equals JavaScript's UTF-16 code-unit order for text in the Basic Multilingual Plane. It can differ for characters outside it, which are not modelled separately.
- IpfsService.GetMessage: the cache holds immutable JSON values. The source's cache holds and returns JavaScript object references (`src/services/ipfsService.js:40, 59, 63-65`), so a caller that mutates a returned record changes the cache, and this is not modelled. After `storeMessage` the source caches the object as it was before serialisation, `undefined` fields included, whereas the model caches the JSON form. `Fetch` assumes `pinata.gateways.get` resolves to exactly the uploaded JSON.
- Per-room sequence numbers, serialised archive writes, reconnect buffering and request expiry are not in this code and are not modelled.
- The chat components, history browsers, settings, wallet, contract, Semaphore, phone-auth and identity-store code are user interface or calls into external SDKs. The `useIPFSChat` hook only forwards to the service.
- `Layout.jsx` and `components/ChatRoom.jsx` use context members the provider does not supply, so they are not part of this model.
