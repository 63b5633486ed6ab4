# Gotalk in Dafny

Gotalk multiplexes requests, streams, notifications and heartbeats over one byte stream. This
project models its wire codec, its Go socket engine and its JavaScript peer, and proves what they
promise: what is written is read back by the other side, message for message, under any
interleaving of writers and any chunking of reads; every request is answered once and by the right
handler run; nothing is stranded, lost or duplicated, and where something is, exactly when.

Three forms of model are used, following the code:

* Code that fills buffers, moves offsets or updates the fields of an object is written as methods
  over arrays and classes, each proved against a function of its inputs or of the old state.
* Goroutines that share a socket are a labelled transition system: one step is one critical
  section, one atomic operation, one channel operation or one write. `Exec` runs any list of steps,
  so a theorem about `After(steps)` is about every interleaving and every reachable state.
* What the code cannot see (handlers, admission, the fate of a write, how a read is chunked, when a
  connection dies, the clock) is a parameter or a step, so the theorems hold for all of it.

Some state components are marked as history: no step reads them, they only record what happened. Main
results about what a socket does are stated apart from the functions that model it: by the letters of
the grammar, by what is registered at the time, or by the steps of a run alone (`Verdicts`, `Grammar`,
`Retries`, `Causes`).

## Files

| file | contents |
|---|---|
| Bytes, Octets, Hex, Fixnum | bytes as numbers and as machine words, hexadecimal fields, the in-place printing of fixed-width numbers |
| Protocol, Codec, Wire, Grammar | the header codec as functions, `MakeMsg`/`ReadMsg` as code over buffers, frames and streams of frames, the documented grammar |
| Handlers | the lookup of handlers |
| ReadLoop, SockRead, Verdicts | the read loop as a function of the bytes that arrive, and as code on a connection; what it has to do with each message |
| Writers, OnWire | concurrent writers and the end-to-end theorem; requests and responses as messages |
| Requestor, Retries, Responses, ResChans | callers, the table of pending responses, `Close`; when a call sends again and what it returns; what becomes of responses; the table as the code keeps it |
| Limits, Responder, Causes | the admission counter; admission, handlers and replies; why a request is answered as it is |
| Peers, Outcomes | a requestor and a responder joined by two streams; what a call between them comes to |
| Streams, StreamWriter | stream requests from writes to reads; streamed responses |
| Utf8, JsProtocol | the JavaScript codecs, and their agreement with Go |
| JsSendQueue, JsReader, JsRequests, JsAnswers, KeepAlive | sending, receiving, requests, the answers of a Go peer, and reconnecting in JavaScript |

## Where the code falls short

The model follows the code, so these are theorems too. Each has the exact condition, or a run that
shows it, in the table below.

* A connection that breaks inside the payload of a response makes the read loop forget the waiting
  call without telling it: the call then waits forever (sock.go:560-563). As long as ids do not wrap
  onto pending ones and peers do not stream replies to single requests, this is the only way in which
  a written single request still waits, with nothing left to wake it, once the socket is closed.
* A stream requestor that does not receive keeps the read loop waiting, and with it every other request
  on a healthy connection, until it receives or the socket is closed (sock.go:574-576).
* `Close` does not wait for the receiver of a stream request, whose channel has no buffer: a receiver
  that is busy at that moment is never told (sock.go:890-897).
* Streamed results sent in reply to a single request can block the read loop for good: exactly if, when
  the call has returned, two more things have been sent its way than it has received.
* A handler of a stream request that returns without an error before its stream has ended stays in
  the table; the part that finds its channel full stalls the whole socket (sock.go:517-518, 549).
* A part of a stream that was refused, or whose handler has failed, ends the read loop and so closes
  the connection for everyone (sock.go:534-537, 803-808).
* An empty chunk after the first is taken for the end of the stream (request.go:29, sock.go:539).
* A stream handler that writes after an empty write or after closing breaks the shape of its response.
* A stream part that cannot be read gives back a slot that its handler gives back again, and the
  counter wraps around; by then the loop has ended and the counter is not used again.
* A notification with an empty name has twelve bytes, one fewer than `ReadMsg` reads first. A protocol
  error has nine, and its code is lost if the stream then breaks instead of ending.
* A Go peer at its limit answers a JavaScript request with `e`, for which `msgHandlers` has no entry: the
  JavaScript peer closes the connection, and with it every other request (js/gotalk/index.js:366-371).
* A handler for all names that is registered on the result of `NewSubHandlers` is never used: a lookup
  that fails goes on to the outer handlers and does not come back (handle.go:198-201).
* In JavaScript: `makeMsg` has no room for the size of an `e` message; a NUL ends a name early; without a
  native decoder a name with a character of four bytes is read as another name;
  `parseHexInt` accepts the characters between `9` and `@` and returns a negative number from 2^31 on;
  replayed frames are still handled after a close and are dropped after an exception; a WebSocket that
  opens before the previous one has reported its end lets new messages overtake the queue; the
  reconnect delay exceeds its maximum if the minimum is above five seconds and no larger maximum is
  given; switching keep-alive off and on during an attempt leads to two connections.

Assumed of a transport: a write appends its bytes or a part of them and then fails for good; a read
returns at least one byte, or an error alone; writes after `Close` fail. Assumed of a WebSocket: after
`close()` no more message events (WHATWG WebSockets standard, section "Feedback from the protocol").

## Model

| member | source | states |
|---|---|---|
| Hex.FixedValue | protocol.go:242-245 | the value of a printed fixed-width field is the number |
| Hex.FieldInRange | protocol.go:171-218 | k hexadecimal digits never exceed the range of their field, so the range error of `ParseUint` cannot occur on one |
| Hex.DigitsFit | protocol.go:242-245 | for n < 16^k the printed digits are at most k, and padding them with zeros gives the k-digit field |
| Fixnum.RShiftSlice | protocol.go:254-267 | the slice is shifted right by n and padded, for all 0 <= n <= len, although it overwrites its own source; the rest of the buffer is untouched |
| Fixnum.AppendUint | protocol.go:242-245 | digits are written at the front of the slice and nowhere else |
| Fixnum.CopyFixnum | protocol.go:242-245 | for n < 16^ndigits exactly ndigits lower-case zero-padded digits are written, and no other byte of the backing buffer changes |
| Protocol.SpellsUniquely | README.md:279-325 | the header grammar is unambiguous and prefix-free |
| Protocol.SpelledIsRead | protocol.go:129-221 | `ReadMsg` returns the header spelled by the grammar at the front of the stream, whatever the case of its digits, and takes its bytes (one more for a nameless notification, up to thirteen for `f`) |
| Protocol.ReadIsSpelled | protocol.go:129-221 | whatever `ReadMsg` accepts is spelled by the grammar at the front of the stream |
| Protocol.EncodeSpells | protocol.go:77-125 | `MakeMsg` spells the header it is given |
| Protocol.ReadsBack | protocol.go:77-221 | `ReadMsg` on a made header followed by anything returns the header and takes exactly its bytes |
| Protocol.RoundTripsExactly | protocol.go:77-221 | of everything `MakeMsg` accepts, the headers that survive the round trip are exactly the well-formed ones: ids of 4 bytes where the type has one, names of 1 to 4095 bytes, no field the type lacks |
| Protocol.HeartbeatReadsBack | protocol.go:66-74 | a heartbeat is read back with its load and time |
| Protocol.ProtocolErrorReadsBack | protocol.go:134-145 | an `f` message yields its code with any four bytes after it or at end of file, and is lost exactly if the stream breaks earlier |
| Codec.MakeMsg | protocol.go:77-125 | filling the buffer field by field produces the encoding, for all arguments that fit it |
| Codec.MakeHeartbeatMsg | protocol.go:66-74 | thirteen bytes of the caller's buffer become the heartbeat, the others are kept |
| Codec.Conn.Read | protocol.go:275 | a reader hands out any non-empty chunk in order, or an error alone |
| Codec.Readn | protocol.go:270-282 | for every chunking the buffer is filled with the next bytes in order; short only at the end of the stream, and then with all that was left |
| Codec.ReadMore | protocol.go:180-191 | growing the scratch buffer keeps what has been read |
| Codec.ReadMsg | protocol.go:129-221 | for every chunking and every content, header, error and number of bytes taken are those of the codec function |
| Wire.FramesAreDistinct | README.md:279-325 | a frame is never the beginning of another one |
| Wire.WrittenIsFrame | sock.go:240-253 | what `writeMsg`, `SendHeartbeat` and `CloseError` write is a frame of the grammar |
| Wire.StreamsDecodeUniquely | README.md:279-325 | a byte stream of written messages comes from one message sequence only |
| Grammar.SpelledAsInGrammar | README.md:284-316 | for each of the ten letters the headers of the codec are exactly what the production of the letter gives, field by field |
| Handlers.FindsExactly | handle.go:191-230 | a handler is found if and only if some level has one for the name, or the outermost has one for all names |
| Verdicts.RunIsRight | sock.go:399-600 | over every run, told by letter and without the decision function: a request is dispatched exactly if it is admitted and there is a handler for its name (and its id is free, for a stream), told to try again exactly if it was not admitted, and gets an error exactly if it has no handler or streams are disabled; parts, responses, notifications and heartbeats likewise; and the loop stops exactly where a header, a lost reply or the end of the stream makes it, for that reason |
| Verdicts.ServeIsRight | sock.go:758-793 | the same at the level of messages |
| ReadLoop.Alignment | sock.go:722-811 | for arbitrary bytes and any behaviour of the environment the bytes consumed are the frames of the messages handled, in order without a gap, up to the bytes the loop refuses; except one byte too many after a nameless notification |
| ReadLoop.ServeInOrder | sock.go:758-793 | at message level the loop handles each message once, in order, until one that stops it |
| ReadLoop.RunServes | sock.go:722-811 | on the bytes of written messages the loop does what it does with the messages one by one |
| ReadLoop.CutFrameIsNotServed | sock.go:411-416 | a frame that the stream cuts short is never handled |
| SockRead.ReadBufferReq | sock.go:399-416 | over limit, unknown operation and dispatch each take exactly the payload, or end the loop |
| SockRead.ReadStreamReq | sock.go:486-511 | the same for stream requests, which are refused by an error if they are disabled, and end in a panic behind the payload if their id is in use |
| SockRead.ReadStreamReqPart | sock.go:533-551 | a part of an unknown stream ends the loop before its payload is read |
| SockRead.ReadNotification | sock.go:581-600 | the payload is taken whether or not there is a handler |
| SockRead.HandleMsg | sock.go:758-793 | the switch of the read loop |
| SockRead.Read | sock.go:719-823 | the loop over `ReadMsg` and the switch is the function the theorems above are about |
| Writers.EndToEnd | sock.go:240-253 | for every interleaving of concurrent writers, one of which may be cut off in a write, the peer's loop handles exactly the completed messages (type, id, name, wait, payload), each as a goroutine was given it, in write order up to the first that stops it, and does with each what `Verdicts` demands |
| Writers.SentIsCompleted | sock.go:240-253 | over every run the messages completed are those that the goroutines were called with, in the order of their last writes |
| Writers.WritersMoveOn | sock.go:241-251 | in every reachable state the holder of the lock can take a step, and if there is none, any waiting goroutine can take the lock |
| Writers.OneWriterAtATime | sock.go:241-251 | in every interleaving at most one goroutine is between locking and unlocking the connection, and so between the two writes of a message |
| ResChans.ResChans.RegisterResChan | sock.go:185-195 | the table under four-byte ids gains what the numbered table gains, and the counter wraps as uint32 |
| ResChans.ResChans.ForgetResChan | sock.go:197-203 | an id is forgotten from both tables |
| ResChans.ResChans.TakeResChan | sock.go:566-572 | a response takes its entry out unless it is a part, and finds the channel registered for it |
| ResChans.ResChans.EndAll | sock.go:876-900 | looping over the table notifies each call in it once, without blocking, and empties it |
| ResChans.OneToOne | protocol.go:224-231 | ids of four bytes and numbers below 2^32 correspond one to one |
| OnWire.ReplyIsRead | response.go:16-28 | each kind of response is written with its letter of the grammar and read back as that kind, with its id and data |
| OnWire.RepliesArrive | sock.go:555-576 | whatever the interleaving of writers, responses written on a connection are taken off by the peer's loop in order, each as it was |
| OnWire.RequestsArrive | sock.go:257-268 | requests are handled in order with their own ids, operations and payloads, to the last one unless a refusal cannot be written |
| Retries.SendsAgainOnRetry | sock.go:282-324 | over every run: a call registers once more after each `e` and never otherwise; any other answer ends it and is what it returns; a failed write ends it |
| Retries.AnswersMatchAttempts | sock.go:566-576 | the i-th answer that a call has received is the response taken for its i-th registration |
| Retries.WrittenIsOwn | sock.go:257-268 | what is written for a registration has the operation and payload of its call |
| Requestor.LiveIdsDistinct | sock.go:185-195 | in every run registrations in use have distinct ids as long as none is 2^32 registrations old |
| Requestor.AccountedOnce | sock.go:257-324 | in every reachable state a waiting call is in the table, in transit, has its answer, or was torn: exactly one of the four |
| Requestor.DeliveryNeverBlocks | sock.go:574-576 | the read loop's send to a waiting single request never blocks |
| Requestor.NoStuckRequest | sock.go:858-911 | once the socket is closed, a waiting call is stranded if and only if the stream ended inside the payload of its response |
| Requestor.StrandedForever | sock.go:294-303 | no continuation of a run wakes a stranded call |
| Requestor.TornResponseStrands | sock.go:557-564 | a run in which a call is stranded |
| Responses.BlocksExactly | sock.go:574-576 | over every run: the send to a single request waits exactly if two more things have been sent its way than it has received; if it has returned, that is exactly when the loop is blocked for good |
| Responses.DeliveryWaitsForReceiver | sock.go:574-576 | as long as single requests are not answered in parts, the loop waits exactly while the user of the stream request that the response is for does not receive |
| Responses.HeldUpUntilReceived | sock.go:574-576 | a single request whose response is behind that one waits until the stream requestor receives or the socket is closed, whatever else happens |
| Responses.IdleStreamHoldsUp | sock.go:340-344 | a run in which this happens on a connection that works |
| Responses.StreamGetsItsResponses | sock.go:555-579 | over every run: the user of a stream request receives the responses that arrived with its id, in order and without gaps, up to and with the first that is not a part; while the request is in the table, all of them but the one the loop holds |
| Responses.InTableExactly | sock.go:566-572 | over every run: the request is in the table exactly until the first response to it that is not a part, a response that is cut off, its being given up, or the close |
| Requestor.StreamingRepliesBlock | sock.go:574-576 | a run in which streamed replies to a single request block the read loop |
| Requestor.BlockedForever | sock.go:574-576 | the loop blocked so never moves again |
| Requestor.StreamMissesClose | sock.go:890-897 | a run in which a stream requestor is not told of the close |
| Requestor.CloseReachesReceivers | sock.go:879-900 | over whole runs: those told of the close are exactly the calls in the table that a send which does not wait reached when it went through it; afterwards a stream requestor that receives once the loop has finished receives in vain, for good |
| Requestor.DeafForever | sock.go:890-897 | nor is it later |
| Requestor.TrailingPartIsDropped | sock.go:566-576 | a requestor that got `E` takes no notice of the empty `S` behind it, whatever happens on the socket in between, unless the id is issued again |
| Requestor.OverrunNeedsManyIds | sock.go:185-195 | the assumption on ids fails only after more than 2^32 registrations |
| Limits.LimitCounter.Inc | limits.go:59-66 | undisturbed, an increment adds one below the limit and is refused otherwise, leaving the count as it was |
| Limits.LimitCounter.Dec | limits.go:68-70 | adding 2^32-1 subtracts one, and wraps around at zero |
| Limits.IncReq | limits.go:119-141 | without a limit everything is admitted and nothing counted |
| Limits.DecReq | limits.go:126-147 | and nothing given back |
| Limits.CounterIsExact | limits.go:59-70 | in every interleaving the count is the number admitted or backing out, without wrap-around; those admitted never exceed the limit; an increment is refused exactly if the two fill it |
| Responder.AnsweredOnce | sock.go:399-530 | with single and stream requests in any order on one loop: while the connection works every request received is held by the loop with nothing written for it, running with what its handler has emitted so far written, or answered with its one response written: exactly one of the three. A response is one reply for a single, refused or unknown request and the trace of its handler's script and error for a stream request. When the connection dies the end of a response can be lost, but nothing is duplicated or reordered. Every frame has its request's id |
| Responder.SingleReplies | sock.go:399-448 | a single request has one reply at most, never a part, and it is its answer |
| Responder.ResponsesConserved | sock.go:374-530 | for every id, requests received are the completed responses plus the running handlers plus at most one the loop holds; the completed responses to single requests are as many as the replies to them on the wire |
| Responder.SlotsCounted | limits.go:119-147 | for either kind of request, in every reachable state: the count is the live handlers of the kind plus the loop's own slot, for stream requests if and only if no part has failed to be read, which holds while the loop runs; live handlers never exceed the limit; a request is refused exactly at the limit |
| Responder.UnlimitedAdmits | limits.go:119-141 | without a limit no request of the kind is refused |
| Responder.TornPartWraps | sock.go:541-547 | a run in which the extra decrement wraps the counter |
| Responder.ExtraOnlyAtTheEnd | sock.go:541-547 | it happens only on a path that ends the loop |
| Responder.EndedForever | sock.go:795-811 | after which no continuation of the run receives a request |
| Causes.AnsweredForACause | sock.go:399-448 | over every run each request has one cause, told by the steps: its kind was full when it arrived, there was no handler, or it was given to one; its answer is then the refusal of its kind, the error that names the operation, or exactly what its handler replied, or wrote and returned; on a working connection one of the three holds of all that the loop has done with |
| Causes.RetryMeansFull | sock.go:486-493 | on the wire, alive or not: `e` answers exactly the requests that arrived when their kind was full, except that disabled stream requests get `E`; so does a request without a handler |
| Causes.LoopEndsExactly | sock.go:796-809 | the loop ends exactly if a reply of its own is not written, a payload or part cannot be read, or the stream ends |
| Causes.FineRunsAreHealthy | sock.go:374-390 | a run in which no read or write fails counts as one on a working connection |
| Outcomes.CallsGetTheirAnswers | sock.go:282-324 | across two peers, over every run: a call's i-th answer is the one answer of the peer to the request written for its i-th registration, with its own operation and payload: `e` exactly if the peer was full when it arrived, an error if it has no handler, and otherwise what its handler replied; the call sends again after each `e` and returns any other answer |
| Outcomes.SendsAgainIfFull | sock.go:316-323 | after a receive the call is about to send again if the peer was full, and has returned the answer if not |
| Outcomes.Projects | sock.go:257-324 | each of two joined peers is in a run of its own |
| Peers.ResponseBelongsToCall | sock.go:555-579 | across two peers the response in a call's channel is the one answer, of the loop or of a handler, that the peer gave to the request it received, which is the very request the call wrote with its own operation and payload, if fewer than 2^32 ids are issued while it is pending or in transit |
| Peers.FlagsNeedManyIds | sock.go:185-195 | this condition fails only in runs that issue more than 2^32 ids |
| Streams.StreamRequest.Write | request.go:21-35 | the first write starts the request, later ones are parts; after a failed one the id is cleared, and further frames belong to no request |
| Streams.StreamRequest.End | request.go:37-50 | an empty part, likewise |
| Streams.Send | request.go:21-43 | writing all chunks and ending leaves exactly the frames of the request |
| Streams.Delivery | sock.go:502-551 | for concurrent streams with distinct ids, what a handler has received is a prefix of what was written for its id |
| Streams.ReadsWhatWasWritten | sock.go:539-549 | a handler that reads to the end gets exactly the chunks if and only if none but the first was empty |
| Streams.StreamDelivered | sock.go:502-551 | the same from the requestor's frames on a shared stream to the handler |
| Streams.HistoryIsOfRun | sock.go:502-518 | the streams known, failed and reused, and the frames written, are those that the steps of the run say |
| Streams.EarlyReturnStalls | sock.go:514-528 | a run in which a handler that returns early stalls the read loop |
| Streams.StalledExactly | sock.go:533-551 | over every run: a handler that has returned stalls the loop exactly if two more items of its stream have been read off the connection than it received |
| Streams.StrayPartEndsLoop | sock.go:533-537 | over every run: the loop ends on a part exactly if its stream was never admitted or its handler has failed, and on nothing else a stream request sends |
| Streams.StalledForever | sock.go:549 | the loop stalled so never moves again |
| StreamWriter.Writer.Write | sock.go:462-468 | an `S` with the chunk, if the connection takes it; an empty one counts as the end either way |
| StreamWriter.Writer.Close | sock.go:478-484 | one empty `S`, unless the end counts as written |
| StreamWriter.RunHandler | sock.go:514-528 | what goes out is the trace of the handler's script, its error and the close, as far as the connection takes it |
| StreamWriter.TraceOfTidy | sock.go:514-528 | chunks in order, then `E` if the handler failed, then one empty `S`, which comes before the `E` if the handler had closed |
| StreamWriter.ShapedExactly | sock.go:456-484 | there is one empty `S` and no `S` behind it exactly for scripts that write nothing behind their end |
| Utf8.SizeOf | js/gotalk/utf8.js:8-12 | the bytes needed by the units before the first NUL |
| Utf8.Encode | js/gotalk/utf8.js:59-83 | the array is filled exactly with the encoding of the units before the first NUL |
| Utf8.Decode | js/gotalk/utf8.js:36-57 | decoding by shifts and masks from the front to the end of the array |
| Utf8.RoundTrip | js/gotalk/utf8.js:36-83 | decoding what was encoded returns the string, surrogates included, if and only if it has no NUL |
| Utf8.EncodesAsInRfc | js/gotalk/utf8.js:66-74 | the bytes of each unit are those of section 3 of RFC 3629, and no others are |
| JsProtocol.CopyBufFixnum | js/gotalk/protocol.js:31-35 | the same digits as in Go, and no other byte changes; writes beyond the buffer are lost |
| JsProtocol.ParseHexInt | js/gotalk/protocol.js:45-70 | the loop, with the bit operators on 32-bit words, computes the value below or throws |
| JsProtocol.PushDigitOnWords | js/gotalk/protocol.js:64 | on the signed numbers that words stand for, shift and disjunction multiply by 16 and add the digit, modulo 2^32 |
| JsProtocol.JsReadsHex | js/gotalk/protocol.js:45-70 | on hexadecimal digits the result is the number as a signed 32-bit word |
| JsProtocol.JsAcceptsMore | js/gotalk/protocol.js:49-65 | what it accepts: hexadecimal digits and the six characters behind `9` |
| JsProtocol.MakeMsg | js/gotalk/protocol.js:135-179 | for any id and name: the fields in order, cut off where the buffer ends or followed by its zeros |
| JsProtocol.MadeIsEncoded | js/gotalk/protocol.js:135-179 | for an id of four bytes or none these are the fields of the header with nothing behind them |
| JsProtocol.SameBytes | js/gotalk/protocol.js:135-179 | the same bytes as Go's `MakeMsg` for every type but `e` |
| JsProtocol.RetryIsCut | js/gotalk/protocol.js:171-176 | an `e` lacks its last eight bytes, and Go reads it as cut off |
| JsProtocol.JsReadsSpelled | js/gotalk/protocol.js:100-132 | `parseMsg` returns the fields of a header of the grammar, the name decoded and numbers as signed words |
| JsProtocol.GoAndJsAgree | js/gotalk/protocol.js:100-132 | on every header Go accepts, `parseMsg` returns the same type, id and numbers and the decoded name, the numbers exactly if they are below 2^31 |
| JsProtocol.NamesAgree | js/gotalk/protocol.js:119-123 | whoever made it, a header that Go accepts with the UTF-8 bytes of a string as its name is read with that string as its name |
| Utf8.DecodedFaithfully | js/gotalk/utf8.js:36-83 | encoding what was decoded gives the bytes back if and only if they are UTF-8, in shortest form, of characters with up to three bytes |
| JsProtocol.NamesDecodedFaithfully | js/gotalk/utf8.js:36-83 | the same for names, and these are the names that are the encoding of some string |
| JsProtocol.FourByteNameIsLost | js/gotalk/utf8.js:48-52 | the name F0 9F 98 80, which Go accepts, is decoded to another one |
| JsProtocol.NameSurvives | js/gotalk/protocol.js:119-142 | a name made in JavaScript is read by Go as its UTF-8 bytes and by JavaScript as itself, the latter exactly if it has no NUL |
| JsSendQueue.Sock.TrySend | js/gotalk/index.js:455-471 | a message goes out whole, or is queued if there is room, or the call throws |
| JsSendQueue.Sock.FlushSendq | js/gotalk/index.js:473-484 | the loop over the queue, which an exception leaves |
| JsSendQueue.Sock.SendEnqueue | js/gotalk/index.js:486-492 | a full queue refuses |
| JsSendQueue.Sock.SendMsg | js/gotalk/index.js:494-516 | queued while closed, tried while open |
| JsSendQueue.Sock.ConnectionStatusChange | js/gotalk/index.js:445-453 | only a change to open flushes |
| JsSendQueue.FlushOutcome | js/gotalk/index.js:473-492 | the messages the WebSocket takes leave in order; the others are queued again in order as far as they fit |
| JsSendQueue.FlushKeepsAll | js/gotalk/index.js:473-492 | nothing is lost exactly if they fit |
| JsSendQueue.SendsAreConserved | js/gotalk/index.js:445-516 | over any run, messages handed over followed by the queue are the accepted messages in order; the queue keeps its limit; a flush never throws; the frames on the wire are those of the messages handed over, and maybe a last header |
| JsSendQueue.AcceptedExactly | js/gotalk/index.js:455-516 | `sendMsg` succeeds exactly if the WebSocket takes all frames of the message or the queue has room, and the message goes to the first of the two that does |
| JsSendQueue.QueuedIsHandedOver | js/gotalk/index.js:473-516 | over every run: a message sent while closed is accepted if there is room, stays in line, and is handed over by a WebSocket exactly if that takes all frames in line up to it |
| JsSendQueue.OpenIsOfEvents | js/gotalk/index.js:445-453 | the socket takes itself for open exactly from an opening to the next close |
| JsSendQueue.ReopenedQueueIsOvertaken | js/gotalk/index.js:445-453 | an opening that is not preceded by a close, with messages queued, changes their order |
| JsReader.Reader.OnVersion | js/gotalk/index.js:334-346 | another version closes the WebSocket |
| JsReader.Reader.OnHeader | js/gotalk/index.js:299-325 | a header is handled, waits for its payload, or closes the WebSocket |
| JsReader.Reader.OnPayload | js/gotalk/index.js:327-332 | the payload is handled with the header before it |
| JsReader.Reader.Handle | js/gotalk/index.js:363-375 | a type without a handler closes the WebSocket |
| JsReader.Reader.StartReading | js/gotalk/index.js:348-356 | buffered frames are replayed through the handlers as they replace each other |
| JsReader.FramesAreServed | js/gotalk/index.js:299-332 | from the one or two frames of each of any messages the reader recovers exactly these messages in order, up to the first that closes the WebSocket |
| JsReader.DeliveredByLetter | js/gotalk/index.js:299-375 | of the messages a peer can write exactly `r`, `R`, `S`, `E`, `n` and `h` are delivered; `f` closes with the reason of its code; everything else closes as an invalid message |
| JsReader.AllAreServed | js/gotalk/index.js:377-440 | messages with these six letters are all handled, with their own payloads, and leave the reader ready |
| JsReader.AllAreDelivered | js/gotalk/index.js:299-332 | so are the frames they come in |
| JsReader.OnlyVersionOne | js/gotalk/index.js:334-346 | of all versions of two hexadecimal digits only the first is accepted, and the others close as unsupported |
| JsAnswers.AnswerReachesCallback | js/gotalk/index.js:401-429 | in every reachable state: a result, error or part of the Go peer for a waiting request calls the callback of that very request, for the last time unless it is a part with a payload; an `e` closes the WebSocket as invalid |
| JsAnswers.EntriesAreOnWire | js/gotalk/index.js:543-549 | the ids of waiting requests are four ASCII characters |
| JsAnswers.IdComesBack | js/gotalk/index.js:402-406 | such an id comes back from the number that Go keeps it as |
| JsAnswers.AnsweredUnlessFull | sock.go:399-402 | what a Go responder writes is delivered, unless its kind was full: then the connection is closed |
| JsReader.SentIsHandled | js/gotalk/index.js:455-516 | from one peer's send queue to the other's handlers: exactly the messages handed over whole are handled, even if the WebSocket broke behind a header |
| JsReader.PeersAgreeOnReason | js/gotalk/index.js:307-318 | when a peer closes because of what it read, the other one notes the same reason |
| JsReader.ReplayAfterClean | js/gotalk/index.js:352-355 | replay and direct delivery agree up to the first frame that throws or closes, that frame included |
| JsReader.ReplayDivergesAfterTrouble | js/gotalk/index.js:352-355 | behind such a frame, and only there, some next frame makes them differ |
| JsRequests.IdsAreDistinct | js/gotalk/index.js:543-549 | base-36 ids have four characters, are injective below 36^4 and 36^3, and no operation id is a stream id |
| JsRequests.CallsAreCounted | js/gotalk/index.js:401-425 | over any run a callback is called once for each part, and exactly once more when its entry leaves the table, unless it was overwritten |
| JsRequests.SettledByReset | js/gotalk/index.js:136-156 | a request that got no part is settled at most once, and by the next reset exactly once, if and only if its entry was not overwritten |
| JsRequests.LostExactlyOnReissue | js/gotalk/index.js:543-554 | an entry is overwritten exactly when its id is issued again, which takes 36^4 operation ids, or 36^3 stream ids, since it was made |
| JsRequests.EndCloses | js/gotalk/index.js:219-231 | `end()` on a connection closes it at once if nothing is outstanding or it is the second call, and otherwise as soon as nothing is |
| JsRequests.IdsCountRequests | js/gotalk/index.js:540-549 | the id of a request is the number of those since the last reset in four base-36 digits, that of a stream request the number of those ever in three |
| JsRequests.EndWaitsForResponses | js/gotalk/index.js:219-231 | after `end()` the socket closes no later than its last response, and no earlier unless `end()` is called again |
| JsRequests.Sock.TakeOpID | js/gotalk/index.js:543-549 | the counter wraps at 36^4 |
| JsRequests.Sock.BufferRequest | js/gotalk/index.js:540-562 | registered, and taken out and settled again if sending throws |
| JsRequests.Sock.StreamRequest | js/gotalk/index.js:623-645 | registered under a stream id |
| JsRequests.Sock.HandleRes | js/gotalk/index.js:401-425 | the callback found before the entry is deleted is called; a part keeps the entry |
| JsRequests.Sock.ResetSock | js/gotalk/index.js:136-156 | the loop calls the callback of every entry once and empties the table |
| JsRequests.Sock.EndSock | js/gotalk/index.js:219-231 | waits once for pending responses |
| KeepAlive.ConfigIsOrdered | js/gotalk/keepalive.js:33-42 | the minimum is at most the maximum unless it exceeds 5000 and no maximum of at least its size is given |
| KeepAlive.DelayIsExponential | js/gotalk/keepalive.js:98-119 | over every run the delay after k >= 1 other errors in a row from none is min(max, min * 2^(k-1)) and no delay exceeds the maximum, exactly if the minimum is at most the maximum |
| KeepAlive.DelayIsOfEvents | js/gotalk/keepalive.js:49-121 | over every run the delay is what the events demand: back-off by the errors in a row, none after a timeout, success, switch or loss of the network, the maximum after any other protocol error, however many errors follow |
| KeepAlive.FailureArmsTimer | js/gotalk/keepalive.js:81-121 | an attempt or connection that ends while enabled arms exactly one timer, or waits for the network if that is lost |
| KeepAlive.NeverGivesUp | js/gotalk/keepalive.js:46-121 | while enabled there is always a connection, an attempt, a timer or a wait for the network |
| KeepAlive.StepInv | js/gotalk/keepalive.js:46-121 | every event keeps: delays between 0 and the larger limit, at most the last timer armed, and only while enabled |
| KeepAlive.TimersAreExclusive | js/gotalk/keepalive.js:67-121 | at most one timer is armed, armed implies enabled, and no attempt starts while disabled |
| KeepAlive.CleanCloseIsSpaced | js/gotalk/keepalive.js:114-120 | after a clean close the next attempt is the earliest that is 100 ms away and the minimum delay after the last attempt |
| KeepAlive.OneConnection | js/gotalk/keepalive.js:46-121 | there is at most one attempt, timer, wait or connection as long as no `enable()` opens while one is left over; the first that does makes two |
| KeepAlive.TogglingMakesTwo | js/gotalk/keepalive.js:49-64 | a run with two attempts at once |
| KeepAlive.Keeper.constructor | js/gotalk/keepalive.js:33-44 | missing or small limits are replaced |
| KeepAlive.Keeper.TurnOn | js/gotalk/keepalive.js:49-57 | enabling opens unless connected |
| KeepAlive.Keeper.TurnOff | js/gotalk/keepalive.js:58-64 | disabling disarms the timer |
| KeepAlive.Keeper.OnOpened | js/gotalk/keepalive.js:67-79 | success ends the back-off, failure retries |
| KeepAlive.Keeper.OnRetry | js/gotalk/keepalive.js:81-121 | the branches of `retry`: disabled, offline, timeout, other protocol error, other error, clean close |

## Left out

- Transports, TLS, HTTP, WebSocket upgrade, listeners and logging: a connection is a queue of bytes that can die.
- Reflection, JSON and the registration of handlers: a handler is any behaviour the steps allow, and the tables may change between messages.
- Real time: read deadlines, heartbeat timers and sleeps are events that may happen at any point; the randomised retry wait is an arbitrary value, and `randUint32` with equal limits is not modelled.
- `Shutdown`, the handshake in Go, `Adopt` of a used socket.
- Requestor, Responses, Responder, Streams, Writers and Peers are functions on values, not classes: their point is the interleaving of steps. `ResChans`, `Limits.LimitCounter`, `Streams.StreamRequest`, `StreamWriter.Writer` and `SockRead` have the code that updates in place.
- Sizes are read as unbounded numbers: `int(size)` on a 32-bit platform, and payloads of 2^32 bytes or more, whose size `writeMsg` truncates, are not modelled.
- Codec.Conn.Read: a reader that returns data together with an error, of which `readn` counts the data and returns the error, is excluded by the assumption on transports.
- Peers.ResponseBelongsToCall: in this composition the responder receives single requests; stream requests take part in the allocation of ids only. Their delivery is the subject of `Streams`, their responses that of `Responder` and `Responses`.
- Streams.Delivery: stream ids are assumed not to be used again on a socket, since only a failing handler is taken out of the table.
- Responder.AnsweredOnce: a frame is written whole or not at all; frames that are cut in the middle are the subject of `Writers`. A handler that panics is modelled for single requests, where the code recovers.
- Limits.CounterIsExact: fewer than 2^32 goroutines use a counter at a time.
- Limits.LimitCounter.Inc: the contract is that of a call nothing interferes with; interference is the subject of `Limits.CounterIsExact`.
- JsProtocol.MakeMsg: names of 4096 bytes or more and sizes of 2^32 or more, for which `copyBufFixnum` does not terminate; ids are given as bytes, and an empty one is no id.
- JsReader.FramesAreServed: what a message handler does, `end()` and heartbeats of this peer are not part of the reader; frames are binary.
- JsSendQueue.SendsAreConserved: a message counts as handed over once `ws.send` has taken its frames without an exception. The code relies on `send` throwing when the WebSocket cannot take a frame; by the WHATWG WebSockets standard it throws only while connecting and otherwise discards in silence, and what is discarded so is handed over but does not arrive. The version frame is sent before the queue.
- JsReader.SentIsHandled: the frames that `ws.send` has taken are assumed to arrive.
- JsRequests.SettledByReset: callbacks do not call back into the socket; messages still queued at a reset may be answered under ids issued later.
- The text codec of JavaScript, its native `TextEncoder`, the encoding of characters as surrogate pairs, and the four-byte branch of the fallback encoder, which no 16-bit unit reaches.
- In JavaScript: `EventEmitter`, the minified build, script URLs and the DOM.
