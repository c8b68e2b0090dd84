# Ambiorix services: a model of their stateful cores, with proofs

This project models the parts of the Ambiorix repository where the most state changes hands, and proves
what they keep. Everything imperative in C is imperative here: buffers are arrays that are edited in
place, objects are classes, loops are loops. Each method is proved equal to a function on values, and the
theorems are about those functions, for all inputs and all runs.

- **Uploads** (`Bytes`, `Multipart`, `StreamBuffer`, `FormData`, `UploadTheorem`, `UploadRefusals`,
  `SmallForms`, `FileWriter`). A request body is searched, cut and shrunk in one buffer until only the
  uploaded file is left, and then drained to disk in chunks. The theorem describes the outcome for every form
  in the grammar of section 5.1.1 of RFC 2046 (its conditions are below) and says exactly when it is the
  payload; forms that were cut off are refused.
- **Event streams** (`EventWriter`, `EventText`, `FcgiState`, `FcgiRuns`, `FcgiProperties`, `FcgiSteps`,
  `FcgiServer`). Requests, streams and subscriptions point at each other and are freed on many paths. What
  each kind of step adds, removes, answers and sends is said of the states before and after; the laws about
  runs build on it. The C heap is a map
  from addresses to records and every access needs the address to be alive, so a use after free is a failed
  proof. The bytes on a connection are proved to read back as the events sent, with ids that count up; the
  first block, and the first id with it, is used up by the response header.
- **Notification filters** (`Expressions`, `NotificationFilter`, `FilterMeaning`). A list of event names is
  compiled to an expression; the token string is parsed again and compared with what was asked for.
- **Access control lists** (`AclWatch`, `AclConsistency`, `AclMoves`, `AclDaemon`). A file system, the
  kernel's queue and the daemon as one state machine; the merged files agree with their directories whenever
  the queue is drained, and moves are seen in every directory that was there before the start.
- **Include trees** (`IncludeEvents`, `IncludeTree`, `IncludeCollector`, `ParseRun`). Tables, a list, use
  counts and a cursor driven by include events, and the three parsing passes that follow.
- **Comments, completion, conversion** (`CommentSplitter`, `CommentReader`, `TabCompletion`, `PythonTime`,
  `PythonConversion`).

`dafny verify dfyconfig.toml` checks all of it.

## What turned out differently

Where the code does not do what its purpose or its documentation suggests, the code is modelled, a lemma
names an input, and another one says exactly when all is well:

- An upload keeps bytes of a short epilogue, keeps further header lines of the file part, and, with bare LF
  line ends, loses a final CR of the payload: `UploadIsPayload`, with `ShortEpilogueIsKept`,
  `FurtherHeaderIsKept` and `FinalReturnIsLost`.
- A short `fwrite` counts as a complete one, and its chunk's remaining bytes are lost: `DrainIsExact`, with
  `ShortWriteLosesBytes`.
- A request to open a stream that is refused because the stream is held, or that names no stream, is never
  served nor freed before the service stops: `OpenStreamFate`, with `StrandedFromStart`.
- The event id is printed as a signed number, so that ids from 2^31 on come out negative: `PrintedReads`,
  with `NegativeId`.
- Line breaks in an event's name or data break it up: `EventComesBack`, with `LineBreakIsLost`.
- With access control the list of names is translated twice, and friendly names alone then let all custom
  events through: `SecondPassIsExact`, with `CustomSlipsThrough`.
- Role directories that appear after start-up, or while it reads the root, are watched without moves:
  `MoveIsSeenOrHarmless`, with `LateDirMissesMove` and `RaceLosesMoves`.
- Times pass through a double that is cut to whole seconds: fractions before 1970 and, from the year 2514
  on, the last microseconds of a second come back wrong: `TimeRoundTrip`, with `EarlyTimeMoves` and
  `LateTimeMoves`.

## The forms of the upload theorem

A form has a preamble, parts and an optional epilogue; lines end in CRLF throughout, or in LF throughout.
Each part begins with its Content-Disposition header, which an optional Content-Type header and any
further headers follow, written as the code looks for them. The boundary and the two header names stand
only where the grammar puts them: the boundary in delimiter lines, Content-Disposition once in each part,
Content-Type not in the text of a part ahead of the file, nor inside the Content-Disposition line of a
part behind it, nor in the epilogue. The code counts and searches these names anywhere, so that a form that
mentions them elsewhere is refused or cut differently.

The file is the first part with a Content-Type, and it has a body, which may be empty. Every part ahead of
it is a field without a Content-Type; a form in which a part with a Content-Type and without any body comes
first is not one of these forms.

## Assumptions about code that is not here

- The table library refuses an empty key; inserting under one fails without notice. Its containers, strings
  and variants are maps, sequences and datatypes here.
- Bytes are characters of the C locale; a request body, a text and a key end at their terminating zero.
- The event filter grammar has `not` in front of an operand, `&&` and `||` in either precedence, list tests
  and parentheses; all other conditions are opaque atoms.
- The kernel drops an event that equals the last unread one, reports what a mask asks for in order, and
  gives a watched directory the descriptor it already has. The merge is any function of a directory's
  files. A directory is read in one go and the merged file is written later.
- The ODL parser reports balanced include events, also when it fails.
- Python's `timestamp` is the double nearest to the exact seconds, with ties to even (IEEE 754 binary64);
  calendar conversions in both libraries are inverse to each other for the years 1 to 9999.

## Model

| member | source | states |
|---|---|---|
| `StreamBuffer.StreamData.Search` | applications/amx-fcgi/src/amx_fcgi_handle_upload.c:85-125 | The search over the byte array finds the least position at or after the start where the needle occurs, else -1; an empty needle and a start outside the buffer find nothing |
| `StreamBuffer.StreamData.GetLineStart` | applications/amx-fcgi/src/amx_fcgi_handle_upload.c:127-152 | The backward scan stops behind the previous line break or at 0, and never passes the given position; a position on a break stays |
| `StreamBuffer.StreamData.RemoveAt` | applications/amx-fcgi/src/amx_fcgi_handle_upload.c:154-190 | Moving the tail down and shrinking the allocation cuts exactly the given range, clipped at the end; a bad range changes nothing and yields -1 |
| `StreamBuffer.StreamData.RemoveLineFromStream` | applications/amx-fcgi/src/amx_fcgi_handle_upload.c:192-219 | Cuts from behind the previous break through the next break or the end, or only the break when the position is one |
| `StreamBuffer.StreamData.RemoveLineWithString` | applications/amx-fcgi/src/amx_fcgi_handle_upload.c:221-245 | The line of the first token ahead of the next boundary (ahead of the last byte when there is none) goes; 1, 0 or -1 tells which case it was |
| `StreamBuffer.StreamData.GetStringCount` | applications/amx-fcgi/src/amx_fcgi_handle_upload.c:278-295 | The counting loop returns the number of all positions that carry the text |
| `Bytes.CountIsCardinality` | applications/amx-fcgi/src/amx_fcgi_handle_upload.c:278-295 | That number is the size of the set of all match positions, overlapping ones included |
| `Bytes.CountStep` | applications/amx-fcgi/src/amx_fcgi_handle_upload.c:288-292 | From one hit of the search to the next, exactly one match is passed |
| `StreamBuffer.StreamData.ParseStep` | applications/amx-fcgi/src/amx_fcgi_handle_upload.c:323-362 | One turn of the driver loop over the array is the step function, with the position kept while lines disappear under it |
| `StreamBuffer.StreamData.RunDriverLoop` | applications/amx-fcgi/src/amx_fcgi_handle_upload.c:316-363 | The loop ends for all bytes (the buffer shrinks in every turn) and computes the recursive specification |
| `StreamBuffer.StreamData.ParseMultipartForm` | applications/amx-fcgi/src/amx_fcgi_handle_upload.c:297-380 | The whole in-place parser equals the specification function, in its verdict and in the bytes it leaves; which bodies are refused is said by WrongCountsAreRefused and CutFormIsRefused, what is left of the others by ParsedForm and UploadIsPayload |
| `Multipart.LoopResult` | applications/amx-fcgi/src/amx_fcgi_handle_upload.c:316-363 | Whatever the bytes, the loop only removes bytes and leaves no boundary |
| `Multipart.ParseResult` | applications/amx-fcgi/src/amx_fcgi_handle_upload.c:297-380 | A successful parse of arbitrary bytes is a subsequence of the input without any boundary, also after the last line ending has been trimmed |
| `FormData.FieldStep` | applications/amx-fcgi/src/amx_fcgi_handle_upload.c:323-362 | A form field ahead of the file disappears with its delimiter in one turn, and the next delimiter loses its dashes |
| `FormData.FileStep` | applications/amx-fcgi/src/amx_fcgi_handle_upload.c:330-349 | The first part with both headers keeps exactly its text: delimiter line, both header lines and blank line go |
| `FormData.LaterStepStale` | applications/amx-fcgi/src/amx_fcgi_handle_upload.c:323-362 | The part right behind the file is reached two bytes late through the kept position, so its Content-Disposition line is not seen; it disappears all the same |
| `FormData.LaterStepAligned` | applications/amx-fcgi/src/amx_fcgi_handle_upload.c:323-362 | Any later part disappears, whether or not it has a Content-Type |
| `FormData.CloseStep` | applications/amx-fcgi/src/amx_fcgi_handle_upload.c:323-362 | The close delimiter disappears; met two bytes late, it leaves the first bytes of the epilogue up to the line that the stale position falls in |
| `FormData.LoopOnForm` | applications/amx-fcgi/src/amx_fcgi_handle_upload.c:316-363 | The driver loop on every form of section 5.1.1 of RFC 2046, with any number of parts before and behind the file |
| `UploadTheorem.FormStart` | applications/amx-fcgi/src/amx_fcgi_handle_upload.c:305-315 | Every form with a part passes the count check, and its preamble goes |
| `UploadTheorem.ParsedForm` | applications/amx-fcgi/src/amx_fcgi_handle_upload.c:297-380 | What the parser makes of every form with a file part: the part's text, and behind it what survives of the epilogue |
| `UploadTheorem.UploadIsPayload` | applications/amx-fcgi/src/amx_fcgi_handle_upload.c:297-380 | Main result: the parser yields exactly the payload of the first part with both headers if and only if the form is clean: that part has no further header lines, the epilogue leaves nothing (it is empty, its first three bytes are there and hold no line break, or another part stands in between), and with bare LF the payload does not end in CR |
| `UploadTheorem.NoFileNoUpload` | applications/amx-fcgi/src/amx_fcgi_handle_upload.c:297-380 | Without a part that has both headers nothing is uploaded: the parse fails, or leaves an empty buffer |
| `UploadRefusals.WrongCountsAreRefused` | applications/amx-fcgi/src/amx_fcgi_handle_upload.c:305-315 | Any bytes at all are refused when the boundary stands at fewer than two places or the text Content-Disposition at another number of places than one less |
| `UploadRefusals.CutFormIsRefused` | applications/amx-fcgi/src/amx_fcgi_handle_upload.c:297-464 | Main result: every form that was cut off within any of its parts, behind the name of its Content-Disposition header and before the next delimiter, is refused, and nothing of it is stored |
| `UploadRefusals.CountInCutParts` | applications/amx-fcgi/src/amx_fcgi_handle_upload.c:278-315 | What arrived of such a form holds as many headers as boundaries |
| `SmallForms.WrittenOut` | applications/amx-fcgi/src/amx_fcgi_handle_upload.c:297-380 | One form and what comes out of it, in literal bytes |
| `SmallForms.ShortEpilogueIsKept` | applications/amx-fcgi/src/amx_fcgi_handle_upload.c:350-361 | A concrete form of RFC 2046 with a two-byte epilogue, whose two bytes stay behind the file |
| `SmallForms.FurtherHeaderIsKept` | applications/amx-fcgi/src/amx_fcgi_handle_upload.c:330-349 | A concrete form with a further header line in the file part, which stays ahead of the file with the blank line |
| `SmallForms.FinalReturnIsLost` | applications/amx-fcgi/src/amx_fcgi_handle_upload.c:364-376 | A concrete form with bare LF whose file ends in CR and loses it |
| `FileWriter.DrainConserves` | applications/amx-fcgi/src/amx_fcgi_handle_upload.c:382-430 | With appends that are complete or fail, the bytes on file followed by the bytes in the buffer are the original at every point, and success means an empty buffer |
| `FileWriter.DrainIsExact` | applications/amx-fcgi/src/amx_fcgi_handle_upload.c:382-430 | A drain succeeds with the whole content on file if and only if no append was short: a short write goes unnoticed and loses bytes |
| `FileWriter.ShortWriteLosesBytes` | applications/amx-fcgi/src/amx_fcgi_handle_upload.c:394-403 | A concrete drain that reports success with one of two bytes on file and none in the buffer |
| `FileWriter.AppendBytesToFile` | applications/amx-fcgi/src/amx_fcgi_handle_upload.c:382-407 | One chunk of at most the given size is appended and dropped from the buffer; a failed append changes nothing |
| `FileWriter.StreamDataToFile` | applications/amx-fcgi/src/amx_fcgi_handle_upload.c:409-430 | The chunk loop over buffer and file equals the drain; an existing file that cannot be removed is appended to |
| `FileWriter.GetFileFromMultipartForm` | applications/amx-fcgi/src/amx_fcgi_handle_upload.c:432-464 | Request body to file: refused when nothing was read, when the parse fails or when it leaves nothing, and then neither the file nor its existence is touched |
| `FileWriter.UploadStoresFile` | applications/amx-fcgi/src/amx_fcgi_handle_upload.c:297-464 | End to end: a clean form with a non-empty file, written with complete appends, leaves exactly that payload on file |
| `FcgiServer.Server.OpenStream` | applications/amx-fcgi/src/amx_fcgi_event_stream.c:113-151 | The open-stream handler on the heap: a held stream is probed; when the probe gets through the newcomer is refused, otherwise the holder is freed and replaced |
| `FcgiServer.Server.CloseStreamRequest` | applications/amx-fcgi/src/amx_fcgi_event_stream.c:153-159 | The request goes, the stream and its subscriptions stay |
| `FcgiServer.Server.CleanStream` | applications/amx-fcgi/src/amx_fcgi_event_stream.c:68-82 | The stream goes with exactly the subscriptions in its table |
| `FcgiServer.Server.SendEmpty` | applications/amx-fcgi/src/amx_fcgi_event_stream.c:84-100 | The heart-beat loop, in any order of the streams, has the effect of the closed form, in which all streams are treated at once |
| `FcgiRuns.BeatenStep` | applications/amx-fcgi/src/amx_fcgi_event_stream.c:87-98 | One more turn of the loop extends the closed form by one stream |
| `FcgiServer.Server.Respond` | applications/amx-fcgi/src/amx_fcgi_message.c:229-264 | Which answers free the request, which leave it to the caller, and what an open-stream request is sent |
| `FcgiServer.Server.Handle` | applications/amx-fcgi/src/amx_fcgi_message.c:266-308 | The request callback along all its exit paths equals the specification; every access to a request is to a live one |
| `FcgiServer.Server.FreeRequest` | applications/amx-fcgi/src/amx_fcgi_message.c:82-88 | The request leaves list and heap together |
| `FcgiServer.Server.Stop` | applications/amx-fcgi/src/amx_fcgi_message.c:310-321 | At the end every listed request is finished and freed once |
| `FcgiServer.Server.Subscribe` | applications/amx-fcgi/src/amx_fcgi_handle_subscription.c:200-261 | The subscribe handler on the heap equals the specification; when it adds what, and how it answers, is said by SubscribeExactly and SubscribeAnswers |
| `FcgiServer.Server.Unsubscribe` | applications/amx-fcgi/src/amx_fcgi_handle_subscription.c:263-290 | The unsubscribe handler: one entry and its subscription go, or nothing changes; UnsubscribeExactly says when |
| `FcgiServer.Server.SendEvent` | applications/amx-fcgi/src/amx_fcgi_event.c:238-274 | Line by line, the writer appends exactly one block with the current id to the connection's bytes, adds the event to what was sent, and moves the id on modulo 2^32, whether or not the write gets through |
| `FcgiRuns.WriteIsNumbered` | applications/amx-fcgi/src/amx_fcgi_event.c:247-263 | After every write the bytes are the blocks of all events sent so far, numbered from 0, and the counter is their number modulo 2^32 |
| `FcgiServer.Server.HandleEvent` | applications/amx-fcgi/src/amx_fcgi_event.c:276-303 | A notification goes to the stream that the subscription is found in; what it delivers is said by NotificationDelivers |
| `FcgiRuns.HandledKeeps` | applications/amx-fcgi/src/amx_fcgi_message.c:229-308 | The request callback keeps ownership, listing and back links intact, for every combination of failures |
| `FcgiRuns.NextKeeps` | applications/amx-fcgi/src/amx_fcgi_event_stream.c:68-159 | Every step (request, notification, heart-beat, stop) keeps the consistency of requests, streams and subscriptions |
| `FcgiRuns.ReachableStates` | applications/amx-fcgi/src/amx_fcgi_handle_subscription.c:186-198 | In every reachable state a stream's request is NULL or alive, listed, never freed and no other stream's, and each subscription is found in the table of the stream it points back to |
| `FcgiRuns.NextConserves` | applications/amx-fcgi/src/amx_fcgi_message.c:229-315 | In one step, what is alive plus what was freed grows by exactly the request that came in |
| `FcgiProperties.RunConserves` | applications/amx-fcgi/src/amx_fcgi_message.c:229-315 | Over any run no request is lost, freed twice or made up |
| `FcgiProperties.EveryRequestFreedOnce` | applications/amx-fcgi/src/amx_fcgi_message.c:310-321 | When the service stops, every request that ever came in has been freed exactly once |
| `FcgiProperties.ShortLived` | applications/amx-fcgi/src/amx_fcgi_message.c:266-308 | A request that does not open a stream, or fails early, has been freed exactly once when its handler returns; an open-stream request is alive then |
| `FcgiSteps.SubscribeExactly` | applications/amx-fcgi/src/amx_fcgi_handle_subscription.c:200-261 | Main result: a subscription record appears exactly when the request was accepted, subscribes, names an existing stream, a free id and a path, its list is readable, its resource is on the bus, access control allows it and the backend accepts; it is the given id under that stream, and otherwise no table changes |
| `FcgiSteps.SubscribeAnswers` | applications/amx-fcgi/src/amx_fcgi_handle_subscription.c:200-261 | Which of 200, 400, 403 and 404 each subscribe request is answered with |
| `FcgiSteps.UnsubscribeExactly` | applications/amx-fcgi/src/amx_fcgi_handle_subscription.c:263-290 | A subscription record disappears by a request exactly when that request names it, and then that one alone |
| `FcgiSteps.OtherAnswers` | applications/amx-fcgi/src/amx_fcgi_message.c:266-308 | The answers to requests that neither open streams nor change subscriptions, and to those that fail early |
| `FcgiSteps.OpeningExactly` | applications/amx-fcgi/src/amx_fcgi_event_stream.c:113-151 | Who holds the stream after a request to open one: the newcomer, unless it names no stream or the holder takes the probe; a new stream begins with an empty table, all others stay |
| `FcgiSteps.OpeningRequests` | applications/amx-fcgi/src/amx_fcgi_event_stream.c:119-147 | Of the other requests only the holder is touched: it takes the probe and stays, or it is freed once |
| `FcgiSteps.OpeningTells` | applications/amx-fcgi/src/amx_fcgi_event_stream.c:113-151 | What the newcomer is told in each case, and that a new stream starts the heart-beat |
| `FcgiSteps.NotificationDelivers` | applications/amx-fcgi/src/amx_fcgi_event.c:276-303 | Main result: the stream whose table holds the subscription gets exactly one more event, named with the subscription's id and carrying the data, and nothing else in the state changes; a failed write frees that request, takes it from that stream, and leaves all tables |
| `FcgiSteps.NotificationIsRead` | applications/amx-fcgi/src/amx_fcgi_event.c:238-303 | In every reachable state, the message read back last from the bytes on that connection has the subscription's id for a name and that data |
| `FcgiSteps.HeartBeat` | applications/amx-fcgi/src/amx_fcgi_event_stream.c:84-100 | The next heart-beat is due after 5000 ms if some stream had no connection or lost it, and after 120000 ms otherwise; each connection that took it got one event with that name and no data |
| `FcgiProperties.OnlySomeStepsDisturb` | applications/amx-fcgi/src/amx_fcgi_event_stream.c:84-159 | Any step but the ones for this stream's own subscriptions, the reaping of it without a connection, and the stop leaves the stream with exactly its subscriptions |
| `FcgiProperties.SubscriptionsSurvive` | applications/amx-fcgi/src/amx_fcgi_event_stream.c:113-159 | Over any run of such steps, losing the connection and reconnecting before the next reaping keeps exactly the same subscriptions |
| `FcgiProperties.TickIsExact` | applications/amx-fcgi/src/amx_fcgi_event_stream.c:84-100 | A heart-beat removes exactly the streams without a request and exactly their subscriptions; each other connection gets one heart-beat, and is freed once and detached when the write fails |
| `FcgiProperties.TwoTicksReap` | applications/amx-fcgi/src/amx_fcgi_event_stream.c:84-100 | A stream is there after two heart-beats in a row if and only if it was connected and took the first one |
| `FcgiProperties.OpeningHeldStream` | applications/amx-fcgi/src/amx_fcgi_event_stream.c:119-147 | A second request for a held stream: either refused with the holder untouched but for the probe, or it inherits the stream with all subscriptions and the holder is freed |
| `FcgiProperties.UnsubscribeUndoesSubscribe` | applications/amx-fcgi/src/amx_fcgi_handle_subscription.c:200-290 | After a successful subscribe, unsubscribe restores all tables |
| `FcgiProperties.SubscriptionIdIsUnique` | applications/amx-fcgi/src/amx_fcgi_handle_subscription.c:227-253 | In every reachable state, any two subscription records in memory that agree in stream and id are one record |
| `FcgiProperties.TakenIdIsRefused` | applications/amx-fcgi/src/amx_fcgi_handle_subscription.c:227-230 | What keeps it so: an id that is taken in a stream is refused with 400 and no change, and success means that it was free |
| `FcgiProperties.StrandedForGood` | applications/amx-fcgi/src/amx_fcgi_event_stream.c:122-126 | A request without a stream stays allocated, listed and unserved over any run up to the stop, and nothing more is written to it |
| `FcgiProperties.StrandedExactly` | applications/amx-fcgi/src/amx_fcgi_event_stream.c:113-151 | A request to open a stream ends up without one if and only if it names no stream, or one whose holder takes the probe; and what it is told |
| `FcgiProperties.OpenStreamFate` | applications/amx-fcgi/src/amx_fcgi_event_stream.c:113-151 | Main result: after any run before the stop, such a request is alive without a stream if and only if one of these held when it came in; otherwise a stream serves it or it has been freed |
| `FcgiProperties.StrandedFromStart` | applications/amx-fcgi/src/amx_fcgi_event_stream.c:113-151 | Two runs from the start that end so: a second request for a stream, and a request without a stream name |
| `FcgiProperties.NextContinues` | applications/amx-fcgi/src/amx_fcgi_event.c:247-263 | What was written on a connection, as events and as bytes, stays; more is only appended |
| `EventText.ReadBlock` | applications/amx-fcgi/src/amx_fcgi_event.c:247-263 | One block written by the event writer reads back, by section 9.2.6 of the HTML Living Standard, as one message with its name, data and id |
| `EventWriter.PrintedReads` | applications/amx-fcgi/src/amx_fcgi_event.c:251-263 | The printed id, read as a signed decimal number, is the counter modulo 2^32 for every value; it is the counter itself if and only if that is below 2^31 |
| `EventWriter.NegativeId` | applications/amx-fcgi/src/amx_fcgi_event.c:251-263 | The id behind 2147483647 on the wire reads as -2147483648 |
| `EventWriter.BlockText` | applications/amx-fcgi/src/amx_fcgi_event.c:247-263 | The literal bytes of a block: the event line, the data line and the id line, each where there is something to say, and the blank line |
| `EventWriter.WireGrows` | applications/amx-fcgi/src/amx_fcgi_event.c:247-263 | Writing one more event appends one more block with the next number |
| `EventText.WireReadsBack` | applications/amx-fcgi/src/amx_fcgi_event.c:238-274 | A whole connection reads back as exactly the events written, in order, and the numbers read from the ids count up by one modulo 2^32 |
| `EventText.EventComesBack` | applications/amx-fcgi/src/amx_fcgi_event.c:250-262 | An event comes back as written if and only if neither its name nor its data holds a line break |
| `EventText.LineBreakIsLost` | applications/amx-fcgi/src/amx_fcgi_event.c:259-262 | A concrete event with a line break in its data, of which the second line is gone |
| `EventText.NamesHaveNoBreak` | applications/amx-fcgi/src/amx_fcgi_event.c:250-262 | No message that a reader gets out of any text has a line break in its name |
| `FcgiProperties.ConnectionsReadBack` | applications/amx-fcgi/src/amx_fcgi_event.c:238-274 | In every reachable state, for every live connection: the bytes written begin with the block that serves as the response header, and the rest reads back as exactly the events sent, whose ids, read as numbers, count up from 1 without a gap modulo 2^32 |
| `NotificationFilter.Compiler.TranslateNotificationNames` | applications/amx-fcgi/src/amx_fcgi_handle_subscription.c:68-89 | The loop over the list in place: every name is translated and the bitmap gains exactly the requested classes; which notification each name stands for is said by AcceptedEvents |
| `NotificationFilter.Compiler.AddEventFilter` | applications/amx-fcgi/src/amx_fcgi_handle_subscription.c:91-123 | The appended text, with its separators and parentheses, for every list and bitmap |
| `NotificationFilter.Compiler.BuildExpression` | applications/amx-fcgi/src/amx_fcgi_handle_subscription.c:125-151 | List, event filter and user filter glued to one token string |
| `Expressions.ParseExtends` | applications/amx-fcgi/src/amx_fcgi_handle_subscription.c:125-151 | A parse does not look past a closing parenthesis |
| `Expressions.ParseParenthesised` | applications/amx-fcgi/src/amx_fcgi_handle_subscription.c:141-143 | Any well-formed user filter, put into parentheses, is one operand with its own meaning |
| `NotificationFilter.ParseInList` | applications/amx-fcgi/src/amx_fcgi_handle_subscription.c:107-109 | A list test in parentheses parses as one operand, whatever follows |
| `FilterMeaning.BuiltMeans` | applications/amx-fcgi/src/amx_fcgi_handle_subscription.c:125-151 | For every list of names and every well-formed user filter the generated text parses, and accepts an event exactly when the event was asked for (by class, or by name) and the user filter holds; independent of which of the two operators binds tighter |
| `FilterMeaning.AcceptedEvents` | applications/amx-fcgi/src/amx_fcgi_handle_subscription.c:68-151 | In plain names: without a user filter an event passes exactly when the list is empty, holds the friendly name of its data model notification (ValueChange: dm:object-changed, ObjectCreation: dm:instance-added, ObjectDeletion: dm:instance-removed), or holds another name and the event is that name or none of the three notifications |
| `FilterMeaning.ClassesDecide` | applications/amx-fcgi/src/amx_fcgi_handle_subscription.c:68-123 | The requested classes alone decide about every event if and only if each data model notification that is named directly belongs to a requested class; so they do for every list of friendly and custom names |
| `FilterMeaning.TranslatedTwice` | applications/amx-fcgi/src/amx_fcgi_handle_subscription.c:68-89 | Translating a translated list, as happens with access control, changes nothing and sees only custom names |
| `FilterMeaning.SecondPassWidens` | applications/amx-fcgi/src/amx_fcgi_handle_subscription.c:166-242 | After two translations the generated filter accepts every event that the generated filter accepts after one, with any user filter |
| `FilterMeaning.SecondPassIsExact` | applications/amx-fcgi/src/amx_fcgi_handle_subscription.c:166-242 | ... and no other event if and only if the list is empty, or asks for custom events, or the user filter accepts none of them |
| `FilterMeaning.CustomSlipsThrough` | applications/amx-fcgi/src/amx_fcgi_handle_subscription.c:166-242 | One friendly name and no user filter: the custom event is accepted after two translations and not after one |
| `AclConsistency.WatchIsFound` | applications/acl-manager/src/alcm_inotify.c:151-159 | The watch of every event the daemon reads is in its list, and is the watch of the event's directory |
| `AclConsistency.NextKeeps` | applications/acl-manager/src/alcm_inotify.c:118-349 | Every step of world, kernel and daemon keeps each directory covered: merged file up to date, event pending, or merge on its way |
| `AclConsistency.RunKeeps` | applications/acl-manager/src/alcm_inotify.c:118-349 | The same over any run |
| `AclConsistency.DrainedAgrees` | applications/acl-manager/src/alcm_inotify.c:257-290 | Covered and drained means that all merged files equal the merge of their directories |
| `AclConsistency.MergedFilesFollow` | applications/acl-manager/src/alcm_inotify.c:118-349 | Main result: over every interleaving of file changes, new directories and daemon steps, start-up included, whenever the queue is drained each role's merged file is the merge of its directory |
| `AclConsistency.CatchesUp` | applications/acl-manager/src/alcm_inotify.c:257-290 | From any reachable state, the daemon left alone drains the queue in a bounded number of steps, and then all merged files agree |
| `AclConsistency.MoveIsSeenOrHarmless` | applications/acl-manager/src/alcm_inotify.c:136-179 | Moving a file is followed by an update if and only if the directory's watch reports moves or the merge does not depend on the file |
| `AclConsistency.LateDirMissesMove` | applications/acl-manager/src/alcm_inotify.c:161-179 | A run from the very start in which a file moved into a directory found after start-up never reaches the merged file |
| `AclConsistency.RaceLosesMoves` | applications/acl-manager/src/alcm_inotify.c:292-320 | A run from the very start in which a directory is created between the watch on the root and its reading: it is found by the reading, loses its watch for moves when the creation event is handled, and then misses a file moved into it |
| `AclMoves.StartDirsReportMoves` | applications/acl-manager/src/alcm_inotify.c:118-149 | After every run, whatever happened in it, a role directory that was there before the start is watched for moves if it is watched |
| `AclMoves.StartDirsAreWatched` | applications/acl-manager/src/alcm_inotify.c:292-349 | ... and once the daemon is running, all of them are watched |
| `AclMoves.MergedFilesFollowMoves` | applications/acl-manager/src/alcm_inotify.c:118-349 | Main result: any run whose moves touch only directories that were there before the start ends with all merged files up to date whenever the daemon has nothing left to do |
| `AclMoves.NextKeepsMoves` | applications/acl-manager/src/alcm_inotify.c:118-349 | Each step of world, kernel and daemon keeps these watches, and none of these directories is ever reported as new |
| `AclDaemon.Daemon.HandleDirEntry` | applications/acl-manager/src/alcm_inotify.c:118-149 | A directory found at start-up gets its watch in place as the step relation says; StartDirsReportMoves says what that watch reports |
| `AclDaemon.Daemon.WatchNewDir` | applications/acl-manager/src/alcm_inotify.c:161-179 | A later directory is watched without moves; one that is watched already keeps its descriptor and loses the moves |
| `AclDaemon.Daemon.FindWatch` | applications/acl-manager/src/alcm_inotify.c:151-159 | The list search returns the first watch with the descriptor |
| `AclDaemon.Daemon.HandleEvent` | applications/acl-manager/src/alcm_inotify.c:209-250 | One record, with the merge it leads to, has the effect of the step relation, and keeps everything covered |
| `AclDaemon.Daemon.InotifyCb` | applications/acl-manager/src/alcm_inotify.c:257-290 | The record loop uses up the buffer; when it read all that was queued, all merged files agree afterwards |
| `IncludeEvents.BalancedReturns` | applications/amxo-cg/src/ocg_file_collector.c:285-318 | Balanced events bring the stack of open files back to where it was |
| `IncludeTree.ChildAdded` | applications/amxo-cg/src/ocg_file_collector.c:303-313 | Linking a new item below the cursor keeps the tree a trie: one item for each path |
| `IncludeTree.ParentPath` | applications/amxo-cg/src/ocg_file_collector.c:316-318 | The table an item is linked in belongs to the item of the path without its last file |
| `IncludeCollector.Collector.AddFile` | applications/amxo-cg/src/ocg_file_collector.c:139-156 | A new file is entered and listed; a known one only changes its type, and stays unlisted when it was included |
| `IncludeCollector.Collector.OpenInclude` | applications/amxo-cg/src/ocg_file_collector.c:285-314 | The use is counted, the file leaves the list and the cursor moves to the item of the longer path |
| `IncludeCollector.Collector.EndInclude` | applications/amxo-cg/src/ocg_file_collector.c:316-318 | The cursor moves back to the item of the shorter path |
| `IncludeCollector.Collector.ProcessEvents` | applications/amxo-cg/src/ocg_file_collector.c:285-318 | For every sequence of events that does not climb above the root: the cursor follows the stack of open files, the tree gains exactly the stacks seen, and exactly the opened files turn into includes |
| `IncludeCollector.Collector.CheckOdlFile` | applications/amxo-cg/src/ocg_file_collector.c:345-370 | A file parsed on its own, with the files it includes afterwards: the cursor returns to its root item, and tree, counts, types and errors gain exactly what its events and codes say |
| `IncludeCollector.TreeInWords` | applications/amxo-cg/src/ocg_file_collector.c:345-370 | What stands under a file that was parsed on its own: the file, the stacks of its own includes, and, if it parsed without error, each file to be included after it with the stacks of that file's includes |
| `IncludeCollector.NeverOpenedIsParsed` | applications/amxo-cg/src/ocg_file_collector.c:387-410 | A file that is never opened by another one is parsed on its own, in spite of the use counts changing during the pass |
| `IncludeCollector.RootsAreUnused` | applications/amxo-cg/src/ocg_file_collector.c:224-233 | After the pass each unused file has been parsed, so that it has an item at the root |
| `IncludeCollector.Collector.CleanTreeRoot` | applications/amxo-cg/src/ocg_file_collector.c:224-233 | Exactly the included files leave the root, with their errors reset |
| `IncludeCollector.Collector.BuildIncludeTree` | applications/amxo-cg/src/ocg_file_collector.c:372-417 | Main result: the root tree's keys, the members of the list and the files with use count 0 coincide; each use count is the number of opens; the tree under each root is exactly the trie of the include stacks seen while parsing it; root files keep the type they were added with and gain their own errors, all others have become includes |
| `ParseRun.Runner.ParseFiles` | applications/amxo-cg/src/ocg_file_collector.c:235-283 | One pass parses the files of its type in list order, all of them or up to the first failure, and sums up the codes |
| `ParseRun.Runner.Run` | applications/amxo-cg/src/ocg_file_collector.c:427-464 | The three passes: explicit files, then scanned, then included; without "continue" the first failure is the last file parsed |
| `ParseRun.UpToFailureIsExact` | applications/amxo-cg/src/ocg_file_collector.c:263-272 | What is parsed without "continue" is the beginning of the order up to and including the first failure, and the result is non-zero exactly when there is one |
| `ParseRun.EachListedOnce` | applications/amxo-cg/src/ocg_file_collector.c:235-283 | The three passes together take each listed file exactly once |
| `ParseRun.OrderIsSorted` | applications/amxo-cg/src/ocg_file_collector.c:427-464 | Files that were named come before those that a scan found, and these before includes; files of one type come in list order |
| `ParseRun.BuildAndRun` | applications/amxo-cg/src/ocg_file_collector.c:372-464 | Building and then running: the files that no other file includes are parsed once each, and no others |
| `CommentSplitter.DivisionIsUnique` | applications/amxo-cg/src/ocg_comment_parser.c:240-299 | There is exactly one way to put the lines, in order, into a text without tag lines followed by blocks that begin with their only tag line |
| `CommentSplitter.DivideOneMore` | applications/amxo-cg/src/ocg_comment_parser.c:252-272 | What one more line does to the division |
| `CommentSplitter.TagLineIs` | applications/amxo-cg/src/ocg_comment_parser.c:386-388 | A line is a tag line exactly when an @ with a letter or digit behind it stands somewhere in it, and the tag begins behind the first of these |
| `CommentSplitter.JoinedCovers` | applications/amxo-cg/src/ocg_comment_parser.c:215-231 | The joined text of a tag is all lines of its block, in order and with one space between each two, up to white space at the very end |
| `CommentSplitter.MatchedGroups` | applications/amxo-cg/src/ocg_comment_parser.c:215-231 | The name is the longest run of letters and digits behind the @, and with what Behind finds it covers the rest of the line |
| `CommentSplitter.Behind` | applications/amxo-cg/src/ocg_comment_parser.c:386-388 | Argument and rest lie one behind the other, with blanks between, and nothing of the line is in two groups or in none |
| `CommentSplitter.JoinedKeepsTag` | applications/amxo-cg/src/ocg_comment_parser.c:215-231 | Joining the continuation lines to a tag line keeps the tag: the joined text begins with the line and matches with the same name |
| `CommentSplitter.OneRecordPerTagLine` | applications/amxo-cg/src/ocg_comment_parser.c:215-299 | There is exactly one record for each tag line, in order, with its name, the lines of its block, and the argument and rest that stand behind the name |
| `CommentReader.Reader.ReadComment` | applications/amxo-cg/src/ocg_comment_parser.c:240-299 | The DOC/TAG machine leaves the text and the records of the one division; it fails exactly when there are no lines |
| `CommentReader.Reader.Parse` | applications/amxo-cg/src/ocg_comment_parser.c:301-376 | A comment replaces the one before; one is available exactly when the comment was not empty |
| `CommentReader.Reader.GetTag` | applications/amxo-cg/src/ocg_comment_parser.c:346-363 | The first record with the name and, if given, the argument; none only when there is none |
| `CommentReader.UnescapedAt` | applications/amxo-cg/src/ocg_comment_parser.c:301-330 | Each backslash with an n behind it becomes a line break, whatever stands before and behind it |
| `CommentReader.UnescapedPlain` | applications/amxo-cg/src/ocg_comment_parser.c:301-330 | A comment without such a pair stays as it is |
| `CommentReader.CommentLinesCover` | applications/amxo-cg/src/ocg_comment_parser.c:240-251 | The comment's lines are those of its text, in order, each without the blanks and asterisks at its ends, and nothing else is lost |
| `CommentReader.CommentLinesAreLines` | applications/amxo-cg/src/ocg_comment_parser.c:246-251 | Lines that were read and trimmed hold no line break and no blank at their ends |
| `TabCompletion.CommonPrefixIsGreatest` | applications/amx-cli/src/amx_cli_complete.c:156-191 | A string begins every word if and only if it begins the common prefix |
| `TabCompletion.BiggestCommon` | applications/amx-cli/src/amx_cli_complete.c:156-191 | The running loop returns the length of the longest common prefix and a word that carries it, or no word when it is empty |
| `TabCompletion.MatchingSize` | applications/amx-cli/src/amx_cli_complete.c:193-205 | The largest overlap of the end of the text with the beginning of the word, up to the given bound |
| `TabCompletion.OverlapIsShortest` | applications/amx-cli/src/amx_cli_complete.c:216-224 | No shorter piece than what the largest overlap leaves makes the text end in the prefix |
| `TabCompletion.InputLine.CompleteOrDump` | applications/amx-cli/src/amx_cli_complete.c:207-251 | Afterwards the text before the cursor ends in the common prefix, the inserted piece is the shortest possible, the text behind the cursor is unchanged, and one word was cut to the prefix; the words are listed exactly when nothing was inserted and there are several |
| `TabCompletion.CompleteTwice` | applications/amx-cli/src/amx_cli_complete.c:207-251 | Completing again with the same words inserts nothing |
| `PythonTime.TimeRoundTrip` | bindings/python3/src/python_amx_conversion.c:71-82 | A point in time of the years 1 to 9999 survives the way through the double of its seconds if and only if, from 1970 on, its microseconds stay below the next second by more than the double's resolution loses, or, before 1970, exceed the whole second by no more than that |
| `PythonTime.SecondsAtScale` | bindings/python3/src/python_amx_conversion.c:78-80 | When the rounded and truncated seconds come out right, for any resolution of the double |
| `PythonTime.LateTimeMoves` | bindings/python3/src/python_amx_conversion.c:78-80 | A time in the year 2514 that comes back one second late |
| `PythonTime.EarlyTimeMoves` | bindings/python3/src/python_amx_conversion.c:78-80 | Half a second before 1970 comes back as half a second after |
| `PythonConversion.RoundTrip` | bindings/python3/src/python_amx_conversion.c:132-313 | A Python value of any depth converts to a variant and back to itself if and only if it survives: texts without a zero character, plain integers of 64 bits, such times, no empty key |
| `PythonConversion.SubclassIsCut` | bindings/python3/src/python_amx_conversion.c:144-145 | An integer of a subclass is cut to 32 bits; it keeps its number exactly when it has 32 bits |
| `PythonConversion.BackIsCanonical` | bindings/python3/src/python_amx_conversion.c:132-313 | A variant goes to Python and back into its canonical form (one type each for texts and integers, whole microseconds, no offset) if and only if its Python value survives |
| `PythonConversion.NormalForm` | bindings/python3/src/python_amx_conversion.c:132-313 | That form has the same Python value and is its own normal form |
| `PythonConversion.ShownEverywhere` | bindings/python3/src/python_amx_conversion.c:253-313 | The same ways by positions and keys lead into a variant and into its Python value, and at the end of each stands what that type is shown as; None stands exactly where a null was, at any depth |
| `PythonConversion.TakenEverywhere` | bindings/python3/src/python_amx_conversion.c:132-163 | Each way into a Python value leads into its variant, by keys that are C strings, and at its end stands the type and number that is taken of the value there, at any depth |
| `PythonConversion.Python2Variant` | bindings/python3/src/python_amx_conversion.c:132-163 | The conversion that fills a variant in place equals the specification |
| `PythonConversion.PythonDict2Variant` | bindings/python3/src/python_amx_conversion.c:94-109 | The dictionary loop with its one reused temporary: the table holds every entry under its key as a C string, and none under the empty one |
| `PythonConversion.KeyedMore` | bindings/python3/src/python_amx_conversion.c:102-106 | One more entry under a key that ends at its first zero character |
| `PythonConversion.PythonList2Variant` | bindings/python3/src/python_amx_conversion.c:112-129 | The list loop |
| `PythonConversion.Variant2Python` | bindings/python3/src/python_amx_conversion.c:253-313 | The case analysis back to Python, with its two loops |

## Left out

- Get, set, add, delete, command, download and batch handlers, login and sessions: thin wrappers over bus calls whose sources are not part of this repository; they are the one method `Other`.
- get_boundary_from_content_type and the upload of bodies that are not multipart: the boundary is a parameter.
- FastCGI, sockets, stdio and inotify calls: each is a parameter that says whether it succeeds.
- Memory exhaustion, and sizes, counts and sums beyond the range of `int`, `int64_t` and `uint32_t`; of the counters only the event id wraps around.
- Access control decisions and the conversion of notifications to JSON: the outcome of the check and the text to send are parameters.
- amx_fcgi_get_input with an empty path, which reports success: modelled as success with an empty path; that a stream of that name cannot be found again is the table assumption above.
- EventText.EventComesBack: an event writer that is given data but no name prints a null pointer; no caller does so, and the model prints an empty name.
- NotificationFilter: the bits of the bitmap are a set of classes; the quoting of strings inside JSON lists is not modelled, a name is one token.
- Deleting and moving role directories, queue overflow, records with several event bits, the byte offsets inside the event buffer, the role objects of the data model, and the directory of merged files appearing after start-up.
- AclDaemon.Daemon.HandleEvent: the merge it leads to happens at once here, while in AclConsistency other steps come between reading and writing.
- AclDaemon.Daemon.InotifyCb: the world stands still while one buffer is used up; AclConsistency interleaves it with every step.
- AclConsistency.MergedFilesFollow: directories are created in the root only. A directory made inside a role's directory would be watched and merged under its own name, and overwrite the merged file of a role of that name.
- IncludeCollector.Collector.OpenInclude: messages, and whether the parser is silent.
- IncludeCollector.Collector.CleanTreeRoot: items below a removed root are freed in C; here they stay as records that no root leads to.
- IncludeCollector.Collector.BuildIncludeTree: starts from empty trees and counts, as the program does.
- ParseRun.Runner.ParseFiles: resetting the data model and the parser's configuration between files; the code of a file does not depend on the files before it.
- The comment hooks that drop the last comment, and warnings about missing comments.
- CommentSplitter.JoinedKeepsTag: the POSIX expression is modelled by its leftmost longest match for texts without line breaks.
- Terminal output, history, and where the words for a completion come from.
- PythonConversion.Python2Variant: None and unsupported types, at any depth; the code takes them for datetimes, `astimezone` fails on them, and the null pointer it yields is used (lines 75 to 86), so that callers cannot pass them.
- PythonConversion.PythonDict2Variant: two keys that are the same C string, of which the table library keeps one.
- PythonConversion.RoundTrip: keys that are no texts, text that has no UTF-8 form, not-a-number, naive datetimes and other time zones, and what Python does with an exception that is pending.
- amxb-inspect, amxo-xml-to, amxrt, argument parsers, loggers and usage texts: no state worth proving.
