# Mock HTTP/WebSocket test server: a Dafny model

The system is a multi-user mock server. A user registers mock endpoints: a path
under `/test/` or `/testws/`, a method, a status, a content type and a stored
response. The server then:

- answers any request under `/test/` from the endpoint with that exact
  (path, method);
- replays the stored body as a paced Server-Sent-Events stream when the content
  type is `text/event-stream`;
- accepts WebSocket upgrades on `/testws/` paths and lets the owner push
  messages to the connected clients;
- records every request and WebSocket event in a bounded in-memory log, which
  each user reads, clears and follows live over a log subscription socket.

The project models the server's core and two pure helpers of the web UI.
It proves what each of them promises.

| module (file) | what it models |
|---|---|
| `Wrappers` (wrappers.dfy) | `Option`; a JSON body field (`Absent` for `undefined`, `Null`, `Present`); JavaScript's `||` and `??` defaulting |
| `JsString` (jsstring.dfy) | `trim`, `replace(/^\/+/, '')`, `replace(/\/{2,}/g, '/')`, ASCII `toLowerCase`, `split` |
| `Paths` (paths.dfy) | `normalizeTestPath` / `normalizeWsPath` |
| `SseEvents` (sse_events.dfy) | `isEventStreamContentType`, `normalizeSseDurationSeconds`, `buildSseEventsFromResponse` (a method with its loop, proved against a function) |
| `SseStream` (sse_stream.dfy) | `streamSseEvents` as the class `EvenlyPacedStream`; the dispatcher's inline `sendNext` loop as the class `FixedGapStream`; their schedules |
| `Logs` (logs.dfy) | the bounded request log (`addLog`'s unshift/pop), the per-owner filter of GET `/api/logs` and the per-owner removal of DELETE `/api/logs` |
| `Endpoints` (endpoints.dfy) | the endpoint registry: create, update and delete as functions from the stored records to an outcome, with the unique index on (path, method) as an invariant |
| `Requests` (requests.dfy) | `getClientIp`, `parseCookies` and the cookie user of a WebSocket client |
| `Dispatch` (dispatch.dfy) | the `/test/*` route's decision: the exact-key lookup, the one log entry and the reply |
| `Server` (server.dfy) | the class `MockServer` with the process-wide state (`endpoints`, `requestLogs`, `logClients`, `testWsConnections`, the sockets), its handlers, and the fan-out loops of `broadcastLog` and `/api/ws/send` |
| `UserPaths` (user_paths.dfy) | `buildUserPath` (and its alias `normalizeTestPath` in the UI, `UserPaths.NormalizeUserPath`) and `extractUserSuffix` |

Time is a parameter. A pending `setTimeout` is a field with its due time, and
the event loop is the caller that invokes `Fire` at that time. Sockets are ids
into a table of records. Each record has an `open` flag (`readyState === OPEN`)
and the frames sent so far. Endpoint ids, connection ids and timestamps are
supplied by the caller.

Choices where the code leaves a freedom:

- `findOne` returns the first stored record a filter matches. The unique index
  makes this immaterial for (path, method) lookups (`Endpoints.KeyLookupIsUnique`).
  The WebSocket upgrade lookup ignores the method, so there the first match is a
  real choice.
- An update without `path` that changes the method onto a key another endpoint
  holds is not answered by the handler. The save fails on the unique index, and
  the outcome is `IndexRejected`: the store is unchanged and no reply is modelled.
  The rejection reaches no handler. server.js installs no `unhandledRejection`
  listener and Express 4 does not catch async rejections, so by Node's default
  since version 15 it ends the process.
- An update may flip `isWebSocket` without touching the path, so "the flag matches
  the path's root" is not an invariant (`Endpoints.FlagFlipKeepsPath`).

`streamSseEvents` spreads events evenly over the configured window, with offsets
`i * duration / max(1, n - 1)`, but the `/test/*` route never calls it. The route
runs its own loop:

- it waits `duration / n` milliseconds after each write, or 30 ms when no duration
  is set;
- it ends the response one gap after the last write. With a duration set, and
  with each delay honoured as given, the stream therefore ends at the configured
  duration (`SseStream.RunFixedGap`, `SseStream.FixedGapSpansDuration`). Node
  truncates a fractional delay and raises one below 1 ms to 1 ms, so the real
  stream can end a little earlier or later.

Both loops are modelled, and the route is tied only to the second.

## Model

| member | source | states |
|---|---|---|
| `JsString.Trim` | server.js:290 | the result neither starts nor ends with a whitespace or line-terminator character |
| `JsString.TrimStartRemovesWhitespace` | server.js:290 | every character `trimStart` drops is whitespace |
| `JsString.TrimEndRemovesWhitespace` | server.js:290 | every character `trimEnd` drops is whitespace |
| `JsString.TrimRemovesOnlyWhitespace` | server.js:290 | the trim is a slice of the input, and everything before and after that slice is whitespace |
| `JsString.TrimOfTrimmed` | server.js:290 | a string that neither starts nor ends with whitespace is its own trim |
| `JsString.StripLeadingSlashes` | server.js:290 | the result is a suffix of the input and does not start with `/` |
| `JsString.StripsOnlySlashes` | server.js:290 | every character removed in front of the result is a `/` |
| `JsString.CollapseSlashes` | server.js:294 | no `//` is left, the first and last characters survive, only the empty string becomes empty |
| `JsString.CollapseNoop` | server.js:294 | collapsing changes nothing in a string without `//` |
| `JsString.CollapseIdempotent` | server.js:294 | collapsing twice is collapsing once |
| `JsString.CollapseJoin` | server.js:294 | a prefix ending in `/` and free of `//` passes through intact, and the slashes that follow it are swallowed |
| `JsString.NoDoubleSlashAppend` | server.js:294 | two strings without `//` join into one without `//` unless the seam is `//` |
| `JsString.ToLower` | server.js:315 | same length, each character lower-cased |
| `JsString.BeforeFirst` | server.js:315 | a prefix without the separator, followed in the input by the separator unless it is all of it |
| `JsString.BeforeFirstAppend` | server.js:315 | what follows the first separator does not change the text before it |
| `JsString.SplitOn` | server.js:265 | never empty, the first piece is the text before the first separator, no piece holds it, one piece exactly when the separator is absent |
| `JsString.BeforeFirstAbsent` | server.js:315 | without a separator the text before it is the whole input |
| `JsString.JoinSplit` | server.js:265 | joining the pieces with the separator gives the input back |
| `JsString.SplitOnSingle` | server.js:265 | a text without the separator is a single piece |
| `JsString.SplitOnStep` | server.js:265 | the first piece is the text before the first separator, the rest are the pieces of what follows it |
| `Paths.SuffixUnder` | server.js:290-292 | the part kept under the root has no leading slash and is a suffix of the trimmed input |
| `Paths.NormalizeUnder` | server.js:294 | the collapsed path is the root followed by the collapsed suffix, and has no `//` |
| `Paths.MarkerIsGood` | server.js:291 | `test/` and `testws/` are markers the algorithm works under: no leading slash, a trailing one, a root without `//` |
| `Paths.SuffixOfRooted` | server.js:290-292 | re-normalising a rooted path recovers exactly the text after the root |
| `Paths.SuffixOfNormalized` | server.js:288-295 | the suffix of a normalised path is the collapsed suffix of the input |
| `Paths.NormalizeUnderIdempotent` | server.js:288-295 | normalising under a marker twice is normalising once |
| `Paths.Normalize` | server.js:288-303 | `null` exactly for `null`/`undefined`; otherwise the result starts with `/test/` (or `/testws/`), has no `//`, and is the bare root when nothing is left of the input |
| `Paths.NormalizeIdempotent` | server.js:288-303 | `normalizeTestPath` and `normalizeWsPath` are idempotent |
| `SseEvents.IsEventStreamContentType` | server.js:313-317 | true only for a present, non-empty content type, so `null`, `undefined` and `''` are never event streams |
| `SseEvents.MediaTypeDecides` | server.js:313-317 | for a trimmed media type without `;` and any parameters, true exactly when the media type lower-cased is `text/event-stream` |
| `SseEvents.EventStreamRecognised` | server.js:313-317 | any capitalisation of `text/event-stream`, with or without parameters, is recognised |
| `SseEvents.ParametersIgnored` | server.js:315 | parameters after `;` never change the answer |
| `SseEvents.NormalizeSseDuration` | server.js:319-323 | a finite non-negative duration is kept, a negative or non-finite one becomes 0 |
| `SseEvents.NormalizeSseDurationIdempotent` | server.js:319-323 | clamping a clamped duration changes nothing |
| `SseEvents.SplitLines` | server.js:327 | at least one line, and no line holds a `\n` |
| `SseEvents.SplitLinesSingle` | server.js:327 | a text without `\n` is a single line |
| `SseEvents.SplitLinesStep` | server.js:327 | the first line is the text before the first `\n` less a `\r` that ends it; the rest are the lines of the text after that `\n` |
| `SseEvents.CrLfSplitsLikeLf` | server.js:327 | `\r\n` and `\n` separate lines alike |
| `SseEvents.FramesAppend` | server.js:330-334 | the records of two blocks of lines are the records of the first followed by those of the second |
| `SseEvents.FramesEmptyIff` | server.js:330-336 | there are no records exactly when every line is blank |
| `SseEvents.FramesAreLines` | server.js:330-334 | a record is exactly a non-blank line followed by `\n\n` |
| `SseEvents.FramesCount` | server.js:330-334 | there is one record per non-blank line |
| `SseEvents.SseEvents` | server.js:325-340 | never empty; the records of the non-blank lines in order, or the keepalive comment alone |
| `SseEvents.MissingBodyIsKeepalive` | server.js:326-338 | a missing body and an empty one both give exactly the keepalive comment |
| `SseEvents.PushFrames` | server.js:329-334 | the `for` loop pushes exactly the records of the non-blank lines, in order |
| `SseEvents.BuildSseEventsFromResponse` | server.js:325-340 | the loop returns exactly `SseEvents(raw)`, which is never empty |
| `SseStream.TargetOffset` | server.js:390 | `Math.round(i * totalMs / denom)` on non-negative values: the nearest integer, halves rounded up |
| `SseStream.TargetOffsetMonotone` | server.js:390 | target offsets never decrease with the event index |
| `SseStream.TargetOffsetFirst` | server.js:343-345 | event 0 is aimed at the start |
| `SseStream.TargetOffsetLast` | server.js:343-345 | with two or more events the last one is aimed at exactly `totalMs` |
| `SseStream.TargetOffsetBounded` | server.js:343-345 | no event is aimed past `totalMs` |
| `SseStream.EvenlyPacedStream.Delay` | server.js:390-391 | the delay is non-negative and reaches the event's target time |
| `SseStream.EvenlyPacedStream.constructor` | server.js:342-399 | setup and the synchronous first `writeNext`: no events end at once; a throwing write closes; otherwise event 0 is written and the next timer is due at its target |
| `SseStream.EvenlyPacedStream.Cleanup` | server.js:351-355 | closed, no timer, nothing else changes |
| `SseStream.EvenlyPacedStream.WriteNext` | server.js:357-393 | each branch of `writeNext`: a closed or destroyed stream only cleans up; past the end it ends once; a throwing write closes; otherwise the next event is appended in order and either the response ends or a timer is set |
| `SseStream.EvenlyPacedStream.Fire` | server.js:392 | the timer callback runs `writeNext` with the same outcomes, keeping the invariant that exactly the first `index` events were written and `res.end` ran at most once, after all of them |
| `SseStream.EvenlyPacedStream.Cancel` | server.js:395-397 | the close and error listeners close the stream without writing or ending |
| `SseStream.EvenlyPacedStream.Destroy` | server.js:358 | a destroyed transport keeps the invariant |
| `SseStream.RunEvenlyPaced` | server.js:342-399 | an uncancelled stream whose timers fire on time writes every event at its target offset, ends exactly once, and with two or more events makes its last write at `startTime + totalMs` |
| `SseStream.FixedGap` | server.js:825-830 | the gap is positive, and 30 ms when no duration is set |
| `SseStream.FixedGapSpansDuration` | server.js:825-826 | with a duration set, `n` gaps add up to exactly that duration |
| `SseStream.FixedGapStream.constructor` | server.js:818-840 | the first `sendNext` runs at once: event 0 is written and the next call is due one gap later; with no events the response ends |
| `SseStream.FixedGapStream.SendNext` | server.js:819-834 | a destroyed or ended response is left alone; otherwise the next event is written and a timer set one gap ahead, or the response is ended after the last one |
| `SseStream.FixedGapStream.Fire` | server.js:827-829 | the timer callback runs `sendNext` with the same outcomes |
| `SseStream.FixedGapStream.RequestClosed` | server.js:836-838 | a closed request ends the response, keeping the invariant |
| `SseStream.FixedGapStream.Destroy` | server.js:820 | a destroyed transport keeps the invariant |
| `SseStream.RunFixedGap` | server.js:818-840 | never closed and fired on time, the loop writes event `i` at `startTime + i * gap`, all of them in order, and ends `n * gap` after the start |
| `Logs.Unshift` | server.js:490-494 | the new entry is first; the others follow, and the oldest is dropped only when the buffer was full |
| `Logs.UnshiftBounded` | server.js:259-260 | a buffer within 500 entries stays within 500 and grows by one until full |
| `Logs.UnshiftAllKeepsNewest` | server.js:490-494 | after any number of appends the buffer is the new entries, newest first, then as many old ones as fit |
| `Logs.BufferKeepsNewest500` | server.js:259-260 | after 500 or more appends exactly the 500 newest entries remain, newest first |
| `Logs.OwnedByMembers` | server.js:612-615 | an entry is in the owner's view exactly when it is in the buffer and belongs to that owner |
| `Logs.OwnedByMembersAll` | server.js:612-615 | the same, for every entry at once |
| `Logs.OwnedByAppend` | server.js:613 | the filter keeps buffer order: it works entry by entry |
| `Logs.OwnedByAfterUnshift` | server.js:490-491 | a freshly logged entry is the first its owner reads back |
| `Logs.NotOwnedByClears` | server.js:689-696 | after clearing, the owner has no entries left |
| `Logs.NotOwnedByKeepsOthers` | server.js:689-696 | every other owner's entries are kept, in their original order |
| `Logs.NotOwnedByAppend` | server.js:689-694 | the removal works entry by entry |
| `Endpoints.FirstMatch` | server.js:536 | `findOne`: the index found matches the filter and no earlier record does; none means no record matches |
| `Endpoints.NewEndpoint` | server.js:541-555 | the stored record: the caller's id, owner and time, every falsy field defaulted, a non-empty body, the sample stream as default body for event streams, and a duration only on event streams, clamped |
| `Endpoints.CreateEndpoint` | server.js:526-558 | 400 exactly when no path was sent; 409 exactly when any owner has the normalised (path, method); otherwise the new record with the stored defaults |
| `Endpoints.CreatedPathIsRooted` | server.js:529-533 | a created record's path carries the root its WebSocket flag requires and has no `//` |
| `Endpoints.CreatePreservesValid` | server.js:536-555 | storing the created record keeps keys and ids unique and durations only on event streams |
| `Endpoints.AppendPreservesValid` | server.js:216 | a record with a free key, a fresh id and a normal duration can join a valid registry |
| `Endpoints.CreateTakenKeyConflicts` | server.js:535-539 | a taken (path, method) key gets 409 whoever asks |
| `Endpoints.Patched` | server.js:587-595 | an update keeps id, owner and creation time, and the duration is zero unless the new content type is an event stream |
| `Endpoints.UpdateEndpoint` | server.js:561-598 | 404 exactly when the caller owns no such endpoint; 400 exactly for a `null` path; 409 only with a path, the unique-index refusal only without one; a kept or renormalised path; a key no other record holds |
| `Endpoints.UpdateConflictRules` | server.js:570-585 | with a path, 409 exactly when another record has the new key; without one, the index refuses exactly when another record has the stored path under the new method |
| `Endpoints.UpdatePreservesValid` | server.js:587-596 | writing the updated record back keeps the registry valid |
| `Endpoints.ReplaceAtPreservesValid` | server.js:216 | a record can take its own place when no other record has its key |
| `Endpoints.FlagFlipKeepsPath` | server.js:592 | flipping only `isWebSocket` leaves a `/test/` path on a WebSocket endpoint |
| `Endpoints.MethodOnlyUpdateSkipsConflictCheck` | server.js:569-596 | a method-only update onto a taken key gets no 409; the index refuses the save |
| `Endpoints.DeleteEndpoint` | server.js:601-609 | 404 exactly when the caller owns no such endpoint; otherwise one record fewer |
| `Endpoints.DeleteRemovesOnlyTarget` | server.js:604 | the records left are exactly those with another id, and the registry stays valid |
| `Endpoints.RemoveAtKeepsOthers` | server.js:604 | removing one record from a valid registry keeps it valid and keeps every record with another id |
| `Endpoints.RemoveAtMembers` | server.js:604 | with unique ids, the records left are exactly those with another id |
| `Endpoints.KeyLookupIsUnique` | server.js:216 | under the unique index a (path, method) lookup has exactly one possible answer |
| `Requests.ClientIp` | server.js:262-270 | the first `x-forwarded-for` entry, trimmed; else `x-real-ip`, trimmed; else the connection's address |
| `Requests.ClientIpIsFirstHop` | server.js:265-266 | entries appended by further proxies do not change the answer |
| `Requests.PairOf` | server.js:307 | the key is the text before the first `=`; there is a value exactly when there is an `=`, and it holds no `=` |
| `Requests.Collect` | server.js:306-310 | no cookie has an empty name or the name `__proto__`, whose assignment on a plain object stores nothing |
| `Requests.CollectKeys` | server.js:308 | a cookie is present exactly when some pair has that name, other than `__proto__`, and a value |
| `Requests.LastPairWins` | server.js:306-310 | a cookie's value is the decoded value of the last pair that sets it |
| `Requests.PairsSingle` | server.js:306-307 | a header without `;` is one pair |
| `Requests.PairsStep` | server.js:306-307 | the pairs of a header are the pair before its first `;`, then the pairs of the text after it |
| `Requests.ParseCookies` | server.js:305-311 | no cookie has an empty name or the name `__proto__`, and a missing header gives no cookies |
| `Requests.CookieUser` | server.js:405-406 | the non-empty `x-user-id` cookie, otherwise `guest` |
| `Requests.NoCookieIsGuest` | server.js:405-406 | a client without a cookie header is `guest` |
| `Dispatch.Match` | server.js:763-766 | a match has exactly the request's `/test/` path and method; no match means no record has both; preflights match nothing |
| `Dispatch.DispatchLog` | server.js:768-798 | one HTTP entry for every non-preflight request, with its method, path, address and time; owned by the matched endpoint's owner with its id, or by the requester and unmatched |
| `Dispatch.DispatchReply` | server.js:757-857 | 204 exactly for OPTIONS; 404 exactly without a match; 400 exactly for a WebSocket endpoint; a thrown head, with no reply, exactly for any other endpoint whose stored status lies outside 100–999; with a sendable status, an event stream of the built events and the fixed gap exactly for an event-stream type, and otherwise status, type and body verbatim |
| `Dispatch.RequestReachesItsEndpoint` | server.js:766 | under the unique index a request is answered from, and logged for the owner of, the endpoint with its exact (path, method); the head throws when that endpoint's status is outside 100–999 |
| `Server.Deliver` | server.js:503-507 | a socket receives the frame exactly when it is an open target; sending opens or closes none and adds no socket |
| `Server.DeliverKeepsOpen` | server.js:504 | sending never changes whether a socket is open |
| `Server.DeliverStep` | server.js:503-507 | delivering to one more target is one more guarded send |
| `Server.SendEach` | server.js:503-507 | the `forEach` loop delivers exactly as `Deliver` says |
| `Server.SendNone` | server.js:722 | before the loop nothing is sent and nothing counted |
| `Server.SendOne` | server.js:724-727 | one step of the relay loop sends to one more connection and counts it exactly when it is open |
| `Server.SendCounting` | server.js:722-729 | the relay loop delivers to every open connection, and `sent` is their number |
| `Server.SocketsOfStep` | server.js:723 | one more connection adds one socket that no other connection has |
| `Server.OpenAmongStep` | server.js:724-726 | one more connection raises the open count exactly when its socket is open |
| `Server.SendStep` | server.js:723-728 | the loop state after one more connection |
| `Server.OpenEventStream` | server.js:815-840 | the built events are streamed with the given gap; the first is written at once and the next call is due one gap later |
| `Server.Respond` | server.js:801-856 | the reply is `DispatchReply`, and a running stream exists exactly for an event-stream reply, with the first event written; a thrown head starts no stream |
| `Server.MockServer.constructor` | server.js:259-285 | empty registry, log, subscriber and connection maps |
| `Server.MockServer.BroadcastLog` | server.js:499-509 | the entry goes only to the open sockets subscribed under its owner, and to nobody for an empty owner |
| `Server.MockServer.AddLog` | server.js:490-496 | the entry is unshifted into the bounded buffer, then broadcast; a subscriber of any other user is left exactly as it was |
| `Server.BroadcastReachesOnlyOwner` | server.js:499-509 | a subscriber registered under `v` receives an entry exactly when it is open and the entry's owner is `v`, a non-empty user |
| `Server.OneUserPerSubscriber` | server.js:408-416 | under the server's invariant a socket subscribes to one user's logs only |
| `Server.MockServer.LogsOf` | server.js:612-615 | exactly the caller's entries |
| `Server.MockServer.ClearLogs` | server.js:689-696 | the backward splice loop leaves exactly the other owners' entries, in order |
| `Server.MockServer.Create` | server.js:526-558 | the registry grows by the created record exactly when `CreateEndpoint` accepts, and stays valid |
| `Server.MockServer.Update` | server.js:561-598 | the owned record is overwritten in place exactly when `UpdateEndpoint` accepts, and the registry stays valid |
| `Server.MockServer.Delete` | server.js:601-609 | removes the caller's record with that id exactly when there is one; 404 otherwise |
| `Server.MockServer.LogRequest` | server.js:759-798 | a preflight logs nothing; any other request unshifts and broadcasts `DispatchLog`'s entry |
| `Server.MockServer.HandleTest` | server.js:757-857 | one log entry as `DispatchLog` says, the reply `DispatchReply` chooses, and a running stream exactly for an event-stream reply |
| `Server.MockServer.WsConnect` | server.js:402-487 | a log socket joins its cookie user's set; an upgrade with no WebSocket endpoint at its path is closed with 4004 and registers nothing; otherwise a fresh connection id is registered under the endpoint, greeted and logged for the owner |
| `Server.MockServer.Subscribe` | server.js:408-413 | a socket not yet registered anywhere joins its user's set, which is created if missing, and its session records that user |
| `Server.MockServer.Reject` | server.js:424-427 | the socket is closed with 4004 |
| `Server.MockServer.Register` | server.js:429-453 | the connection is registered under its endpoint, greeted, and logged for the endpoint's owner |
| `Server.MockServer.WsMessage` | server.js:455-469 | a business connection's message is logged for the endpoint's owner; a log socket has no handler |
| `Server.MockServer.SocketClosing` | server.js:504 | the socket stops being open and stays registered |
| `Server.MockServer.SocketClosed` | server.js:414-482 | a log socket leaves its user's set; a business connection deletes exactly its own connection id and logs the disconnect |
| `Server.MockServer.RelayToAll` | server.js:721-729 | every open connection of the endpoint gets the message, and `sent` is their number |
| `Server.MockServer.WsSend` | server.js:699-731 | 404 unless the caller owns the endpoint and it has connections; with a connection id, 200 and `sent` 1 exactly when that connection is open; without, 200 and `sent` equal to the open connections, each sent the message |
| `Server.ConnectThenCloseRestores` | server.js:430-472 | a connection that opens and then closes leaves its endpoint's connection map as it was |
| `Server.SubscribeThenCloseRestores` | server.js:410-416 | a log subscription that opens and then closes leaves its user's set as it was |
| `UserPaths.UserRootIsGood` | src/App.jsx:9 | for a user id without `/`, `/test/<userId>/` starts and ends with `/` and has no `//` |
| `UserPaths.BuildUnder` | src/App.jsx:9-13 | the result has no `//` and is never empty |
| `UserPaths.BuildUserPath` | src/App.jsx:5-14 | `/test/hello` without a user; an input already in the user's folder, collapsed; otherwise the folder, the input without leading slashes (or `hello`), collapsed; never a `//` |
| `UserPaths.CollapseUnder` | src/App.jsx:13 | collapsing a folder followed by a tail keeps the folder in front and leaves the result trimmed |
| `UserPaths.BuildUnderShape` | src/App.jsx:9-13 | the result lies in the folder and is already trimmed |
| `UserPaths.BuildUserPathShape` | src/App.jsx:5-14 | for a plain user id the result lies in `/test/<userId>/` and is its own trim |
| `UserPaths.BuildUserPathIdempotent` | src/App.jsx:5-14 | for a plain user id a second call changes nothing |
| `UserPaths.DropHead` | src/App.jsx:20-21 | the result does not start with `/` and is a suffix of the path |
| `UserPaths.ExtractUserSuffix` | src/App.jsx:18-22 | empty when the path or the user is empty; otherwise a suffix of the path that does not start with `/` |
| `UserPaths.BuildUnderPlainSuffix` | src/App.jsx:12-13 | a suffix without leading slash or `//` is placed under the folder unchanged |
| `UserPaths.DropHeadOfJoined` | src/App.jsx:20-21 | removing the head and one slash leaves what followed them |
| `UserPaths.RoundTrip` | src/App.jsx:5-22 | for a plain user id, the form's suffix (trimmed, non-empty, no leading slash, no `//`) survives `buildUserPath` followed by `extractUserSuffix` |

## Left out

- Express, cors, body and cookie middleware, static files and `server.listen` are framework plumbing and are not modelled.
- `ensureUser` cookie minting and the `uuidv4` calls are not modelled: user ids, endpoint ids and connection ids are parameters. Fresh ids are a precondition.
- The MongoDB connection and its query language are not modelled. The collection is a sequence of records, and each `findOne` filter is a `Query` value.
- Endpoint ids are taken to be well-formed ObjectId strings in `toHexString`'s lower-case form. The handlers pass the raw `:id` or `endpointId` text as `_id` (server.js:563, 604, 702), and Mongoose casts it to an ObjectId first. A malformed id makes that cast throw inside the async handler; the rejection reaches no handler, so no reply is sent and, by Node's default since version 15, the process ends. The model does not model that throw.
- Endpoints.UpdateEndpoint: compares ids as text, so an id the cast maps to a stored record without being its exact text (the upper-case hex of it, say) gets 404 in the model, while the source updates that record.
- Endpoints.DeleteEndpoint: compares ids as text, so such an id gets 404 in the model, while the source deletes the record.
- Server.MockServer.Update: inherits the text comparison of `Endpoints.UpdateEndpoint`.
- Server.MockServer.Delete: inherits the text comparison of `Endpoints.DeleteEndpoint`. (`Server.MockServer.WsSend` looks its id up in a `Map`, by exact text, as the source does.)
- GET `/api/endpoints`, GET `/api/me` and GET `/api/ws/connections/:endpointId` are not modelled; they only read and list state.
- The OpenAI-compatible mock `/v1/chat/completions` is not modelled; it returns canned responses on a fixed 50 ms loop.
- The clock and the timers are not modelled as such: times are parameters, a pending `setTimeout` is a due time in a field, `clearTimeout` clears it, and request and response events are explicit method calls. The due time is now plus the delay as computed; Node truncates a fractional delay to whole milliseconds and raises a delay below 1 ms (0 included) to 1 ms, which the model does not do.
- Floating point is modelled only in part. Durations are integer milliseconds with a `NonFinite` case for NaN and infinities. `Math.round` is exact rounding half up on non-negative values. The dispatcher's gap `duration / n` is a `real`.
- JSON serialisation of frames, log entries, headers, query and body is not modelled: they are opaque values.
- `DEFAULT_SSE_RESPONSE` is a short stand-in for the long sample stream literal.
- `String(...)` coercion of non-string values, and an array-valued `x-forwarded-for`, are not modelled; every input is already a string.
- `decodeURIComponent` is the function parameter `decode`; the error it throws on malformed input is not modelled.
- A stored status outside 100–999 is modelled as the `HeadThrows` reply: Node's `writeHead` throws, and no reply is sent. What follows the throw is not modelled. The rejection reaches no handler, so by Node's default since version 15 the process ends, and the log entry written before the throw is all that remains of the request.
- `toLowerCase` is modelled on ASCII letters only. No non-ASCII character lower-cases to a letter of `text/event-stream`, so the content-type test is unaffected.
- The `RegExp` in `extractUserSuffix` is a literal prefix match; user ids are uuids, so they hold no metacharacter.
- The React component of src/App.jsx is not modelled: hooks, `fetch`, the browser WebSocket client, rendering and formatting.
- The `1011` close on an internal error of the upgrade handler is not modelled, nor the interleaving of its asynchronous lookup with other events; every handler runs to completion.
- A client that closes its socket after the 4004 close: the model records only that the socket is no longer open.
- Server.MockServer.HandleTest: the due time of the stream's first timer is stated by `Server.OpenEventStream` (one gap after the start); `HandleTest` and `Server.Respond` state only that a timer is pending.
- Server.Respond: states only that a timer is pending, for the same reason.
- Server.MockServer.WsConnect: takes the client's user as `clientUserId`, computed by `Requests.CookieUser` from the cookie header, and the client address as `ip`, computed by `Requests.ClientIp`.
- Server.MockServer.Register: the greeting frame is appended to a socket that is open by precondition; the source sends it without checking `readyState`.
- Requests.ClientIp: `fallback` stands for `req.ip || req.socket.remoteAddress` (`getClientIp`) and for `req.socket.remoteAddress` (`getClientIpFromWs`); the two functions differ only there.
