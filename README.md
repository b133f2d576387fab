# Portal server session engine, modelled in Dafny

The portal test server (`test/server.js`) gives a web client an event-based
socket over one of several transports. This project models the session
engine behind it and proves properties of the model:

- **Long-poll transport** (`LongPoll`, longpoll.dfy). A pseudo-connection
  made of request/response exchanges. The class `Transport` keeps the
  buffer of sent envelopes, the `ended`/`written` flags of the held
  response, and the close timers. Its methods are `Refresh` (an `open` or
  `poll` exchange), `Send`, `Close`, `ResponseFinished` (a response's
  `finish`/`close` event) and `Tick` (a close timer fires). Acknowledgement
  trimming is the source's nested `forEach` with `splice` during iteration,
  written as a loop (`Acknowledge`). It is proved equal to a recursive
  specification (`Trim`). That specification is then proved to remove
  exactly the acknowledged envelopes, in order, when the buffered ids are
  distinct.
- **Stream framing** (`Stream`, stream.dfy). The padding preamble and the
  event-stream framing of each message, as pure functions. They come with
  an interpreter of the `data` field of the event-stream format ("Parsing
  an event stream" in the Server-sent events section of the HTML
  standard). Preamble followed by frames is proved to read back as the sent
  messages, in order, with line breaks normalised to LF.
  - The padding is 2047 spaces, or 4094 for Android browsers below 3,
    because `Array(2048).join(" ")` is 2047 spaces long.
  - The comment at test/server.js:285 asks for more than 1KB of padding, or
    more than 4KB for those Android browsers.
  - With its line feed, the Android preamble is 4095 characters, one short of
    4096; `Stream.PreambleShape` states the length.
- **Socket session** (`Session`, socket.dfy). The class `Socket` holds the
  reply-callback table and the heartbeat timer. The class `ReplyContext`
  is the single-use `done`/`fail` pair with its latch. The class `Registry`
  is the `sockets` map by id. The `reply` listener, the latch and the
  heartbeat supervisor also have pure step functions, with lemmas over any
  sequence of calls.
- **Wire format** (`Json`, `Wire`, json.dfy and wire.dfy).
  - The envelope `{"id","type","data","reply"}` comes out of
    `JSON.stringify`: string escaping exactly as `JSON.stringify` writes
    it, and the string decoding it is proved to invert.
  - The regular expression `/"id":"([^"]+)"/` reads the id back, and is
    proved to return exactly the id the socket gave the envelope.
- **Composition** (`Portal`, portal.dfy). A socket send over a long-poll
  transport, acknowledgement of the sent envelope by its id, and the close
  notifications around a poll, written as small scenarios.

Timers are events, not durations. The long-poll transport's `closeTimer` is
two fields:
- `armed`: the timer `closeTimer` refers to is pending;
- `strays`: the number of older pending timers that `closeTimer` no longer
  refers to. A response whose `finish` and `close` events both arrive
  leaves one.

All close timers have the same 500 ms delay, so they fire oldest first.
`Tick` is the oldest one firing. The heartbeat timer is a flag, since it is
always cleared before it is re-armed.

External calls become parameters:
- `uuid.v4` becomes the `freshId` argument of each sending operation.
- The HTTP response becomes the values the operations return: the body
  written, or whether the response ends.
- The application's callbacks become opaque `Callback` values. The
  operation that would run one returns it with its argument.

Two behaviours of the long-poll code that are easy to misread:
- The poll flush always writes `"[" + buffer.join(",") + "]"`, even when one
  envelope is buffered (test/server.js:409-412), and so does
  `Transport.Refresh`.
- Close can be notified twice: from `onclose` (test/server.js:366) and from
  the timer armed in the same `onclose` (test/server.js:372-374).
  `Portal.EmptyPollCloses` shows both.

The latch and the heartbeat supervisor are stated twice. The pure step
functions (`Session.Replies`, `Session.Closes`) carry the lemmas over any
sequence of calls. The class methods (`ReplyContext.Done`/`Fail`,
`Socket.OnMessage`/`HeartbeatElapsed`) are the state changes. The
scenarios `Portal.DoneThenFail`, `Portal.FailThenDone` and
`Portal.Supervise` drive the methods and prove that what they send or close
is what the step functions give.

## Model

| member | source | states |
|---|---|---|
| Base.JoinSplitOn | test/server.js:394-396 | splitting the `lastEventIds` text on commas and joining the pieces with commas gives the text back |
| Json.EscapeChar | test/server.js:441 | `JSON.stringify` writes a character as itself exactly when it is neither a quote, a backslash nor a control character |
| Json.QuoteRoundTrip | test/server.js:441 | decoding a JSON string literal undoes `JSON.stringify` of every string |
| Json.EscapePlain | test/server.js:540 | a string with no character needing escape, such as a uuid, is written unchanged inside its quotes |
| Wire.SerializeHead | test/server.js:528-540 | the envelope built and serialised by `socket.send` starts with `{"id":"<id>"` |
| Wire.IdOfSerialize | test/server.js:399 | the id regular expression, applied to an envelope serialised by `socket.send` (lines 528-540), captures exactly the envelope's id |
| Wire.Serialize | test/server.js:540 | `JSON.stringify` of the envelope; `Wire.SerializeObject`, `Wire.SerializeHead` and `Wire.IdOfSerialize` state that it is an object text, starts with its id member and yields that id to the id expression |
| Wire.IsBatch | test/server.js:423 | the `/^\[/` test of a payload; `Wire.SerializeNotBatch` and `LongPoll.Batch` state that envelopes fail it and flushed batches pass it |
| Wire.ReplyData | test/server.js:507-518 | the reply data objects of `done` and `fail`; `Session.ReplyFields` states their members |
| Wire.SerializeObject | test/server.js:540 | the envelope `JSON.stringify` gives is a JSON object text, from `{` to `}` |
| Wire.IdOf | test/server.js:399 | an id the regular expression captures is non-empty and free of quotes |
| Json.Quote | test/server.js:441 | `JSON.stringify` of a string is a literal between double quotes |
| Wire.SerializeNotBatch | test/server.js:423-425 | an envelope serialised by `socket.send` never starts with `[`, so the long-poll transport always buffers it |
| Stream.JoinHoles | test/server.js:267 | joining `n + 1` empty slots with a space gives `n` spaces |
| Stream.Text2KBSpaces | test/server.js:267 | `Array(2048).join(" ")` is 2047 spaces |
| Stream.Preamble | test/server.js:287 | the preamble written when a stream opens ends with a line feed; `Stream.PreambleShape` states its whole shape |
| Stream.Frame | test/server.js:302-311 | one event-stream frame per message, which `Stream.StreamRoundTrip` and `Stream.FramePadding` read back and measure |
| Stream.IsAndroidLowerThan3 | test/server.js:268 | the user-agent test; `Stream.AndroidMeaning` states exactly when it holds |
| Stream.AndroidMeaning | test/server.js:268 | the Android test holds exactly when `Android ` followed by 2 or 3 and one more non-terminator character occurs in the user agent; no match when the header is absent |
| Stream.PreambleShape | test/server.js:267-287 | the preamble is 2047 spaces (4094 for Android 2 and 3) followed by one LF |
| Stream.SplitLines | test/server.js:306 | splitting on CRLF, CR or LF gives at least one piece and no piece contains CR or LF |
| Stream.JoinSplitLines | test/server.js:306 | joining the split pieces with LF gives the data with every CRLF, CR and LF normalised to LF |
| Stream.FramePadding | test/server.js:302-305 | the Android frame is exactly 4094 spaces in front of the ordinary frame, which begins with its `data` field |
| Stream.SplitDataLines | test/server.js:306-309 | the framed lines split back into one `data: <line>` line per data line |
| Stream.FrameDispatch | test/server.js:298-311 | one frame is read back as one event whose data is the sent text, line breaks normalised |
| Stream.StreamRoundTrip | test/server.js:287-311 | preamble then frames is read back as the sent messages, in order, each normalised, and the preamble dispatches nothing |
| LongPoll.JsonpRoundTrip | test/server.js:435-443 | a JSONP body is `callback(` a string literal `);` whose literal JSON-decodes to exactly the data sent |
| LongPoll.Batch | test/server.js:409-412 | the flushed batch starts with `[`, so sending it never re-buffers it |
| LongPoll.Body | test/server.js:435-443 | a JSONP body ends with `);`; `LongPoll.JsonpRoundTrip` states that its argument decodes to the data |
| LongPoll.AckIds | test/server.js:394-396 | no id is acknowledged iff `lastEventIds` is absent or empty; otherwise the ids contain no comma and join back into the parameter |
| LongPoll.Pass | test/server.js:397-403 | one `forEach` pass never lengthens the buffer |
| LongPoll.PassOnlyRemoves | test/server.js:397-403 | one pass leaves a sub-multiset of the buffer: it only removes messages |
| LongPoll.Trim | test/server.js:396-404 | trimming never lengthens the buffer; `LongPoll.TrimUnacked` states which messages it removes |
| LongPoll.TrimOnlyRemoves | test/server.js:396-404 | whatever the ids, trimming leaves a sub-multiset of the buffer |
| LongPoll.IndexOf | test/server.js:401 | `indexOf` gives the first position holding the message |
| LongPoll.UnackedMembers | test/server.js:394-405 | a message is left after trimming iff it was buffered and its id was not acknowledged |
| LongPoll.UnackedKeepsDistinct | test/server.js:394-405 | trimming never grows the buffer and keeps buffered ids distinct |
| LongPoll.PassNoMatch | test/server.js:397-403 | a pass over messages none of which carries the acknowledged id changes nothing and does not crash |
| LongPoll.PassOneMatch | test/server.js:397-403 | a pass for an id that one message carries, with ids distinct, removes exactly that message |
| LongPoll.PassUnacked | test/server.js:397-403 | one `forEach` pass removes exactly the messages the id acknowledges, when ids are distinct |
| LongPoll.TrimUnacked | test/server.js:394-404 | trimming by all acknowledged ids removes exactly the acknowledged messages, keeps the order of the rest and does not crash, when the buffered ids are distinct |
| LongPoll.AdjacentDuplicateSurvives | test/server.js:397-403 | with two equal adjacent messages the splice shifts the second onto the visited index, so the pass leaves it in the buffer |
| LongPoll.Transport.constructor | test/server.js:330-344 | a new transport has an empty buffer, no live response and no pending timer |
| LongPoll.Transport.Send | test/server.js:418-448 | a non-batch payload is appended to the buffer whether or not a response is held; the body is written, and `written` set, only when the response has not ended; the body is the data, or the JSONP call |
| LongPoll.Transport.Acknowledge | test/server.js:394-404 | the nested loops leave the buffer, and the crash flag, that `Trim` gives |
| LongPoll.Transport.Refresh | test/server.js:347-414 | an `open` exchange ends its response with no body and changes nothing; a `poll` adopts the response (`ended` and `written` false), cancels the referenced close timer, trims the buffer when `lastEventIds` is non-empty, and flushes `[` + join + `]` exactly when the trimmed buffer is non-empty |
| LongPoll.Transport.Close | test/server.js:449-454 | `close()` ends the response exactly when it has not ended |
| LongPoll.Transport.ResponseFinished | test/server.js:357-377 | a finished response sets `ended`; close is notified at once iff the exchange was a `poll` that wrote nothing; a close timer is armed in every case, and the one it replaces becomes unreachable |
| LongPoll.Transport.Tick | test/server.js:372-374 | the oldest pending close timer fires and notifies close; nothing happens when none is pending |
| Session.ReplyKey | test/server.js:551-553 | reading `reply.id` fails exactly when the reply data is absent or null |
| Session.Replies | test/server.js:498-520 | a sequence of `done`/`fail` calls sends no more replies than calls; `Session.AtMostOneReply` and `Session.LatchedSilent` sharpen this to exactly one |
| Session.Closes | test/server.js:560-580 | the supervisor asks for no more closes than it receives signals; `Session.ClosesBound` sharpens this to one plus the number of heartbeats |
| Session.LookupAsWritten | test/server.js:551-553 | the callback-table membership test as written, which also finds inherited names |
| Session.ProtoReplyThrows | test/server.js:551-553 | a reply carrying id `__proto__` throws under the lookup as written, though no callback is stored |
| Session.LookupOwn | test/server.js:551-553 | the corrected lookup finds a callback iff one is stored under the id, and reports absence otherwise |
| Session.LookupAgrees | test/server.js:551-553 | both lookups agree on every id that is not an inherited name |
| Session.OnReply | test/server.js:550-557 | a reply whose id has a stored callback runs that callback with the reply's data and deletes its entry; an unknown id leaves the table unchanged; reading the id of absent or null data throws |
| Session.ReplyFiresOnce | test/server.js:550-557 | after a callback has fired, the same reply again is ignored |
| Session.ReplyKeepsOthers | test/server.js:550-557 | a reply for one id leaves the callbacks stored under every other id in place |
| Session.LatchedSilent | test/server.js:499-520 | once the latch is set, no further `done` or `fail` sends anything |
| Session.AtMostOneReply | test/server.js:498-520 | any non-empty sequence of `done`/`fail` calls sends exactly one reply, the one for the first call |
| Session.ReplyFields | test/server.js:507-518 | the reply data carries the inbound event's id, the result, and `exception` false for `done` and true for `fail` |
| Session.DisabledNeverCloses | test/server.js:560 | with no heartbeat interval the supervisor never closes the socket |
| Session.ClosesBound | test/server.js:560-580 | the supervisor closes at most once for the initial arming plus once per heartbeat received |
| Session.SilenceClosesOnce | test/server.js:575-580 | once the timer is armed, silence closes the socket exactly once |
| Session.Registry.constructor | test/server.js:464 | the registry starts empty |
| Session.Registry.Lookup | test/server.js:110-111 | `id in sockets` then `sockets[id]`, as the poll, abort and POST routes use them (also lines 124-125 and 185-186), over own entries only: a socket is found iff one is registered under the id, and it is the socket with that id |
| Session.Socket.constructor | test/server.js:467-564 | a new socket registers itself under its id, replacing any earlier entry there; its callback table is empty; the heartbeat timer is armed iff an interval is given |
| Session.Socket.Send | test/server.js:526-541 | the envelope has the fresh id, the type and data, and `reply` true iff a callback is given; the callback is stored under the fresh id only when given |
| Session.Socket.OnMessage | test/server.js:482-573 | a reply context is offered iff the event expects a reply; a `reply` event runs the reply listener; a `heartbeat` event re-arms the timer and echoes a heartbeat when an interval is set; other events change nothing |
| Session.Socket.HeartbeatElapsed | test/server.js:575-580 | a pending heartbeat timer fires and asks the transport to close |
| Session.Socket.OnTransportClose | test/server.js:475-480 | the registry entry under the socket's id is deleted; a repeated notification deletes nothing more |
| Session.ReplyContext.constructor | test/server.js:483-498 | a reply context starts unlatched, bound to the socket and the inbound event's id |
| Session.ReplyContext.Done | test/server.js:499-509 | the first answer sends one reply with `exception` false; later answers send nothing; the callback table is untouched |
| Session.ReplyContext.Fail | test/server.js:510-520 | the first answer sends one reply with `exception` true; later answers send nothing; the callback table is untouched |
| Portal.AckSentEvent | test/server.js:394-404 | buffering an envelope with a new id keeps ids distinct, and acknowledging that id removes exactly that envelope |
| Portal.SendOverLongPoll | test/server.js:418-448 | a socket send over long polling buffers the envelope, writes it when a response is held, and the transport reads the fresh id back out of it |
| Portal.PollBeforeIdleClose | test/server.js:357-390 | a data-carrying poll response ends and a new poll arrives before the timer fires: no close is notified |
| Portal.EmptyPollCloses | test/server.js:364-374 | an empty poll response ending notifies close at once, and the timer armed with it notifies again |
| Portal.DoneThenFail | test/server.js:498-520 | `done` then `fail` on one reply context sends exactly the single reply `Replies` gives, the `done` one, and the `fail` sends nothing |
| Portal.FailThenDone | test/server.js:498-520 | `fail` then `done` sends exactly the single `fail` reply `Replies` gives |
| Portal.Supervise | test/server.js:560-580 | a socket driven through heartbeats and elapsed intervals asks its transport to close exactly as often as `Session.Closes` counts |
| Portal.BothEventsLeaveStrayTimer | test/server.js:370-389 | when both `finish` and `close` arrive for one response, the next poll cannot cancel the first timer, which still notifies close |

## Left out

- HTTP server setup, static files and the WebSocket upgrade (test/server.js:11-47): I/O plumbing over libraries.
- Request routing, query parsing and POST body reading (test/server.js:55-199). These are the environment that calls `Refresh`, `Close`, `Socket.OnMessage` and the registry lookups. The routing's own `id in sockets` tests share the inherited-name behaviour of the callback lookup; they are not modelled.
- Header policy `nocache`/`cors` and content types (test/server.js:201-219, 273, 350): constant side effects on the response.
- The WebSocket transport (test/server.js:238-258): a pure delegation to the `ws` library.
- `socket.close` (test/server.js:542-544): a pure delegation to the transport's close. It appears as the result of `Session.Socket.HeartbeatElapsed` and as `LongPoll.Transport.Close`.
- The stream transport's `close` and its `close`/`finish` notification (test/server.js:290-294, 316-318): one call into the response each.
- `JSON.parse` of inbound messages (test/server.js:488). The model starts from the parsed `Inbound` record. Malformed text, which makes `JSON.parse` throw, is not modelled.
- JSON numbers other than integers. Lone UTF-16 surrogates, which `JSON.stringify` escapes, cannot occur in Dafny strings.
- Json.IntToString: writes every integer in plain decimal notation. `JSON.stringify` writes a number of magnitude 10^21 or more in exponent form (`1e+21`), and integers beyond 2^53 are not exactly representable as JavaScript numbers; the model does not capture either.
- LongPoll.JsonpRoundTrip: states that the literal JSON-decodes to the data. In script engines before ECMAScript 2019, an unescaped U+2028 or U+2029 in the literal ends the line and the JSONP script fails to parse; the model does not capture this.
- Session.Registry.Lookup: looks up own entries only. In the source `sockets` is a plain object, so `"__proto__" in sockets` is true with nothing registered, and `GET ?when=poll&id=__proto__` then calls `.transport.refresh` on the prototype and throws (test/server.js:110-111; likewise the abort route at 124-125 and the POST route at 185-186).
- Session.Socket.constructor: registers the socket as a map entry. In the source, for id `__proto__`, `sockets[params.id] = socket` (test/server.js:547) replaces the prototype of `sockets` instead of adding an entry, and `delete sockets[params.id]` (test/server.js:477) does not undo it.
- Session.Socket.OnMessage: the reply branch uses the corrected own-key lookup `Session.LookupOwn` (see ## Findings), not the lookup as written.
- Real time. Timers are events, and durations (500 ms, the heartbeat interval) do not occur.
- `+params.heartbeat` (test/server.js:560): JavaScript's string-to-number conversion is not modelled. The socket takes its truthiness as a boolean.
- `uuid.v4`: a parameter. Properties that need its ids to be free of quotes and backslashes assume `Wire.SafeId`.
- Session.Socket.OnTransportClose: the socket's own `close` event to the application (`socket.emit("close")`, test/server.js:479) is not represented; the method only deletes the registry entry.
- Application listeners (the demo handlers at test/server.js:591-609). `Delivered` and the reply context stand for what they receive. What a stored callback does when run is not modelled; the model deletes its entry at the moment the source calls it.
- Node's `EventEmitter` rule that an `error` event with no listener throws. An inbound event of type `error` is `Delivered`.
- Stream framing for Android is not read back through the event-stream interpreter. Its padding shares the first line with the first `data` field, and is left to the client's own parser. `Stream.FramePadding` states what follows the padding.
- LongPoll.Transport.constructor: `ended` starts true. The source leaves it undefined until the open response finishes (test/server.js:333, 360). A send in that window would write on a response that does not exist, and a `close()` in that window, for example from the abort route (test/server.js:124-125), would call `.end()` on it (test/server.js:452); the model does neither.
- LongPoll.Trim: when a buffered message has no id the regular expression can match, the source throws; the model returns `crashed` with the buffer as far as it was trimmed.
- LongPoll.Transport.Send: a second send while `ended` is still false, before the response's `finish` arrives, is written to the already-ended response as in the source; the data survives in the buffer.

## Findings

| source | as written | input that shows it | evidently intended | confidence | as-written member | corrected member |
|---|---|---|---|---|---|---|
| test/server.js:551-553 | `reply.id in socket.callbacks` tests a plain object, so inherited names count as present; for `__proto__` the following `.call` is on a non-function and throws, uncaught | an inbound `{"type":"reply","data":{"id":"__proto__"}}` with no callback stored | an id with no stored callback is ignored (own entries only) | not executed | Session.LookupAsWritten, Session.ProtoReplyThrows | Session.LookupOwn, Session.OnReply |
