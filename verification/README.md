# signalk-mini: verified delivery to slow clients

signalk-mini serves a changing Signal K model to clients that may read slowly,
without keeping a queue per client. This project models the parts that make
that work, and the byte-stream readers below them, in Dafny, and proves what
the server relies on.

| files | what they model |
|---|---|
| `json_text`, `leaf_lexer`, `crc32`, `rest_resume`, `rest_runs` | REST responses that are regenerated on every pass and continued after the leaves already sent |
| `delta_frame`, `snapshot`, `snapshot_values`, `publisher`, `snapshot_runs`, `pending` | deltas in a fixed buffer, the resumable current-value snapshot, and the publishing of queued changes |
| `change_queue`, `catch_up`, `frames`, `stream_server`, `delivery`, `server_runs` | the coalescing change queue, the catch-up protocol of the stream server, that what the publisher sends is what the protocol delivers, and whole runs of the server |
| `websocket_decoder`, `websocket_messages`, `websocket_slot` | the streaming WebSocket frame decoder |
| `model_tree`, `model_writer`, `model_document` | the full-model writer that prints a tree it never builds, and its document as JSON |
| `json_framer`, `json_soundness`, `json_reader` | the framer that cuts a byte stream into JSON values |
| `dsc`, `dsc_receiver` | DSC calls of the NMEA 0183 receiver: waiting for expansions, duplicates, alerts |

Code that changes state in place is modelled by classes with the same fields,
arrays and loops. Each method is proved against a function on values, and the
theorems are about those functions: over all inputs, all splits of a stream,
all refusals of a client, and all runs.

A `char` stands for a byte. Sizes, counters and cursors are unbounded; the CRC
is a bit-vector, the lexer's mask is 32 flags and its depth wraps at 256.
Outside events are nondeterministic: how much room a client reports, whether a
sink takes a delta, what a read returns, whether the clock can be formatted.

Where the source does something else than it says, or than one might expect:

- `publisher.hpp` says the longest fitting prefix of a text is sent. The loop
  tries a shrinking series of lengths: `LongestIffTried` says exactly when the
  longest is sent, and `LongestNotSent` gives a text that loses more.
- `signalk_stream_server.hpp` sees to it that an empty queue takes a whole delta
  and a WebSocket header. `write_text` refuses texts above 512 bytes all the
  same, and the server build makes deltas of up to 1024. A WebSocket client that
  waits for a longer one never leaves catch-up (`StuckCycle`); with a JSON buffer
  of up to 515 bytes it always does (`CatchUpCycle`, `LargeBufferStuck`).
- A pump without a timestamp reports its pass as complete. `BlindPump` says
  exactly when that is right, and `BlindPumpLoses` what a client then lacks.
- `undo_last` may follow an add once. A second undo in a row breaks the frame
  (`UndoTwiceLosesComma`); `UndoExactness` gives the exact condition, which the
  publisher keeps to.
- The lexer marks objects in 32 bits and counts levels in 8. `LexerExactness`
  shows exactly which documents it misreads, at any depth, and `SeenIffVisible`
  what that means while the count does not wrap.
- `has_branch_values` looks only for a path below the prefix, whereas
  `write_branch` also skips empty segments. The server has no path with an
  empty segment, and for such paths the two agree (`WrittenIffUnder`).
- A value that fits no delta is passed over and a long text is shortened, so
  what a client ends up with is what a value is broken into. `SplitKeepsMeaning`
  and `QuietClientHolds` say exactly when that is the whole value.

## Model

| member | source | states |
|---|---|---|
| `JsonText.QuoteRoundTrip` | src/signalk_mini/signalk_json_stream_writer.hpp:55-79 | Reading a quoted text back by section 7 of RFC 8259 gives the C text that was quoted, whatever it contains |
| `LeafLexer.JsonLeafLexer.constructor` | src/signalk_mini/signalk_rest_stream.hpp:105-112 | A new lexer is in the start state |
| `LeafLexer.JsonLeafLexer.FeedByte` | src/signalk_mini/signalk_rest_stream.hpp:33-87 | The in-place lexer step is the step of the lexer automaton, for every state and byte |
| `LeafLexer.JsonLeafLexer.PushLevel` | src/signalk_mini/signalk_rest_stream.hpp:97-100 | Opening a container, with the 32-bit object mask and the wrapping 8-bit depth |
| `LeafLexer.JsonLeafLexer.PopLevel` | src/signalk_mini/signalk_rest_stream.hpp:101-103 | Closing a container never goes below the top level |
| `LeafLexer.JsonLeafLexer.FinishLeaf` | src/signalk_mini/signalk_rest_stream.hpp:90-94 | A number or word at the very end is reported as ended |
| `LeafLexer.LexerClassifiesDocument` | src/signalk_mini/signalk_rest_stream.hpp:33-104 | For every printed tree whose objects lie within 32 levels: exactly one leaf end per scalar or string, at its last byte, and exactly punctuation and key bytes are structural |
| `LeafLexer.ShallowDocument` | src/signalk_mini/signalk_rest_stream.hpp:33-104 | In particular every tree nested at most 32 deep is classified correctly |
| `LeafLexer.LexerExactness` | src/signalk_mini/signalk_rest_stream.hpp:33-104 | For a document of any depth the classification is correct if and only if the 32-bit mask and the wrapping 8-bit depth tell keys from values throughout it |
| `LeafLexer.SeenIffVisible` | src/signalk_mini/signalk_rest_stream.hpp:97-104 | Up to a nesting of 255 that is exactly when no object with members lies below level 32 |
| `Crc32.UpdateLoop` | src/signalk_mini/signalk_rest_stream.hpp:18-22 | The eight-step loop computes the CRC update |
| `Crc32.Polynomial` | src/signalk_mini/signalk_rest_stream.hpp:18-22 | It is the update of CRC-32 with the reflected polynomial 0xEDB88320 |
| `Crc32.UpdateInjective` | src/signalk_mini/signalk_rest_stream.hpp:18-22 | The update is injective in the state and injective in the byte |
| `Crc32.CrcInjectiveInState` | src/signalk_mini/signalk_rest_stream.hpp:18-22 | A CRC over any bytes is injective in its starting state |
| `Crc32.ByteChangeDetected` | src/signalk_mini/signalk_rest_stream.hpp:18-22 | Structures of any length that differ in one byte have different CRCs |
| `Crc32.BurstDetected` | src/signalk_mini/signalk_rest_stream.hpp:18-22 | So do structures that differ anywhere within four adjacent bytes |
| `RestResume.RestResumeSink.FeedByte` | src/signalk_mini/signalk_rest_stream.hpp:162-169 | Each byte keeps the pass invariant: what is sent and what waits in the segment is exactly the document after the resume point |
| `RestResume.RestResumeSink.Boundary` | src/signalk_mini/signalk_rest_stream.hpp:171-182 | At a leaf end: keep skipping, check the CRC at the resume point, or commit the segment and advance the job |
| `RestResume.RestResumeSink.Append` | src/signalk_mini/signalk_rest_stream.hpp:184-194 | Collecting a byte; a leaf longer than the segment is sent in pieces, and the pass stops only if a write failed or there was no room for the piece |
| `RestResume.RestResumeSink.Commit` | src/signalk_mini/signalk_rest_stream.hpp:196-206 | A segment is sent whole, or the pass pauses before it, or fails |
| `RestResume.RestResumeSink.Write` | src/signalk_mini/signalk_rest_stream.hpp:140-147 | The writer callback accepts any split of the document into pieces |
| `RestResume.RestResumeSink.Finish` | src/signalk_mini/signalk_rest_stream.hpp:149-159 | End of the document: the last leaf is committed; a document shorter than the resume point fails |
| `RestResume.RunPass` | src/signalk_mini/signalk_rest_stream.hpp:133-228 | One regeneration, for any room answers and partial writes: a mismatching structure CRC fails with no byte written; otherwise the bytes are exactly the document from the old to the new resume point; a pause means there was no room for the next segment; a failure on a matching document means a failed write, or a segment over 512 bytes and no room for the piece of it that was waiting; with room for 512 bytes at every answer and no failed write the pass completes |
| `RestResume.ChangedStructureFails` | src/signalk_mini/signalk_rest_stream.hpp:171-182 | A document whose structure before the resume point differs from what was sent anywhere within four adjacent bytes fails the pass with nothing written |
| `RestRuns.UnchangingDocument` | src/signalk_mini/signalk_rest_stream.hpp:133-228 | For one unchanging document and any passes: paused means exactly the prefix up to the recorded leaf is out, complete means the concatenation is the document, failed means a prefix |
| `RestRuns.SameShapeResumes` | src/signalk_mini/signalk_rest_stream.hpp:171-182 | A document of the same shape passes the CRC check wherever the other paused |
| `RestRuns.SplicedResponse` | src/signalk_mini/signalk_rest_stream.hpp:149-182 | When leaf values change but not the shape, no pass is rejected and what the client received is the printed form (or its leaf-aligned prefix) of one tree of that shape |
| `RestRuns.SplicedLeaves` | src/signalk_mini/signalk_rest_stream.hpp:149-182 | Each leaf of that tree is the leaf of the document of the pass that sent it |
| `RestRuns.SentInOrder` | src/signalk_mini/signalk_rest_stream.hpp:149-182 | The sending passes are non-decreasing along the leaves |
| `DeltaFrame.JsonBuffer.Rewind` | src/signalk_mini/signalk_json_stream_writer.hpp:33-39 | Rewinding to a mark restores the text at that mark and clears the failure; an impossible mark changes nothing |
| `DeltaFrame.JsonBuffer.AppendBytes` | src/signalk_mini/signalk_json_stream_writer.hpp:137-152 | An append writes all its bytes or fails and leaves the text; the last buffer byte stays free for the NUL |
| `DeltaFrame.JsonBuffer.AppendQuoted` | src/signalk_mini/signalk_json_stream_writer.hpp:50-79 | Escaping byte by byte writes the quoted text, and succeeds exactly when all of it fits |
| `DeltaFrame.SignalKDeltaFrame.constructor` | src/signalk_mini/publisher.hpp:30-31 | The trailer is reserved up front |
| `DeltaFrame.SignalKDeltaFrame.Begin` | src/signalk_mini/publisher.hpp:36-46 | Opens a delta exactly when its header fits |
| `DeltaFrame.SignalKDeltaFrame.Reopen` | src/signalk_mini/publisher.hpp:48-52 | Back to the header with no values |
| `DeltaFrame.SignalKDeltaFrame.Add` | src/signalk_mini/publisher.hpp:56-69 | An entry is added exactly when it completes and fits; otherwise, even if it failed midway, the frame is as before; too large only if the frame was empty |
| `DeltaFrame.SignalKDeltaFrame.UndoLast` | src/signalk_mini/publisher.hpp:72-75 | Removes exactly the last added value, also when a failed add came in between |
| `DeltaFrame.UndoExactness` | src/signalk_mini/publisher.hpp:56-75 | For any sequence of adds (fitting or not) and undos: the frame is its header and its values after every operation if and only if no undo comes without an add of its own |
| `DeltaFrame.UndoTwiceLosesComma` | src/signalk_mini/publisher.hpp:58-75 | Two undos in a row lower the count without removing text, so the next value loses its comma |
| `DeltaFrame.SignalKDeltaFrame.Finish` | src/signalk_mini/publisher.hpp:77-86 | What is handed out is header, non-empty comma-separated entries and trailer, inside the buffer with its NUL; an empty frame hands out nothing |
| `DeltaFrame.DeltaIsJson` | src/signalk_mini/publisher.hpp:36-90 | A finished delta is the printed form of one JSON document and a line end |
| `Snapshot.Shorter` | src/signalk_mini/publisher.hpp:435-436 | The next length tried is smaller and at a character start |
| `Snapshot.ShortenedLength` | src/signalk_mini/publisher.hpp:433-448 | Shrinking terminates; the prefix found fits an empty delta and is cut at a character start |
| `Snapshot.ShorteningFindsPrefix` | src/signalk_mini/publisher.hpp:433-448 | Shortening finds a prefix if and only if the text is not empty and the empty text would fit |
| `Snapshot.LongestIffTried` | src/signalk_mini/publisher.hpp:433-448 | The longest fitting prefix is sent if and only if its length is among those the loop tries, which the text alone decides |
| `Snapshot.ShortTextTried` | src/signalk_mini/publisher.hpp:435-436 | For texts of at most 16 bytes every character start is tried |
| `Snapshot.LongestNotSent` | src/signalk_mini/publisher.hpp:433-448 | Of 20 letters 19 would fit and 15 are sent |
| `Snapshot.ShortenedIsUtf8` | src/signalk_mini/publisher.hpp:436-436 | A shortened UTF-8 text is UTF-8 (section 4 of RFC 3629, without overlong forms and surrogates) |
| `Snapshot.ChildPath` | src/signalk_mini/publisher.hpp:418-425 | Member paths are non-empty and fit the path buffer, or the member is dropped |
| `Snapshot.EveryEntryFits` | src/signalk_mini/publisher.hpp:377-448 | Every entry a value is broken into fits a delta with only its header; how it is broken up is a function of the value and that room |
| `Snapshot.SplitIsValues` | src/signalk_mini/publisher.hpp:402-429 | The entries of an object are the entries of the path-value pairs it is broken into |
| `Snapshot.SplitKeepsMeaning` | src/signalk_mini/publisher.hpp:402-429 | Those pairs denote the same leaf at every path as the object does, if and only if nothing is dropped or shortened |
| `SnapshotValues.ObjectSent` | src/signalk_mini/publisher.hpp:378-429 | An object that fits no delta is sent as path-value pairs, which mean what it means if and only if what does not fit whole is at most three objects deep with member paths below 160 bytes |
| `SnapshotValues.ObjectSentInFull` | src/signalk_mini/publisher.hpp:378-429 | In particular nothing is lost if every leaf fits a delta under its own path |
| `SnapshotValues.TextSent` | src/signalk_mini/publisher.hpp:384-387 | A text that fits no delta is sent as one shorter prefix, unless it is empty or even the empty text would not fit |
| `SnapshotValues.ValueSent` | src/signalk_mini/publisher.hpp:378-391 | A value that fits a delta is sent whole, and another one that is neither text nor object is not sent |
| `SnapshotValues.FieldInSnapshot` | src/signalk_mini/publisher.hpp:205-220 | Every value of a selected field is in the snapshot, under the header of its source |
| `SnapshotValues.TargetInSnapshot` | src/signalk_mini/publisher.hpp:453-499 | Every value of a target that fits is in the snapshot, in the context of the target |
| `SnapshotValues.PlainIsFilter` | src/signalk_mini/publisher.hpp:453-499 | All values of a target are sent in order if they fit |
| `Snapshot.CursorFindsItem` | src/signalk_mini/publisher.hpp:311-338 | A cursor made from any item continues exactly at that item |
| `Snapshot.StoppedPass` | src/signalk_mini/publisher.hpp:326-329 | Stopping at the first item of a refused delta loses and repeats nothing |
| `Publisher.SignalKPublisher.Flush` | src/signalk_mini/publisher.hpp:284-293 | A flush hands the frame to the sink and empties it, or leaves everything in place if the sink refuses |
| `Publisher.SignalKPublisher.NoteAdded` | src/signalk_mini/publisher.hpp:360-372 | A value delivered in an earlier pass is taken out again and counted; otherwise the start of the frame is remembered |
| `Publisher.SignalKPublisher.AddOrSplit` | src/signalk_mini/publisher.hpp:341-358 | An entry is added, continuing in a new delta only if it does not fit the open one; whether it is added depends only on the header and the value, never on what the frame holds |
| `Publisher.SignalKPublisher.AddShortenedText` | src/signalk_mini/publisher.hpp:433-448 | The loop sends the shortened text of the specification |
| `Publisher.Shorten` | src/signalk_mini/publisher.hpp:435-436 | The inner loop moves back to a character start |
| `Publisher.SignalKPublisher.AddJsonSplit` | src/signalk_mini/publisher.hpp:402-429 | An object is sent whole, or member by member to depth three |
| `Publisher.SignalKPublisher.AddValue` | src/signalk_mini/publisher.hpp:378-397 | A mapped value is sent whole, shortened, member by member, or dropped |
| `Publisher.SignalKPublisher.Enter` | src/signalk_mini/publisher.hpp:319-324 | Skipping applies to the resumed position only |
| `Publisher.SignalKPublisher.PrepareFrame` | src/signalk_mini/publisher.hpp:205-215 | An open delta is sent if and only if it is of another source or holds as many values as a batch may |
| `Publisher.SignalKPublisher.PublishTarget` | src/signalk_mini/publisher.hpp:453-499 | One AIS target in its own context, over as many deltas as needed |
| `Publisher.SignalKPublisher.PublishField` | src/signalk_mini/publisher.hpp:205-220 | One field of the snapshot loop: flush on a source change or a full batch, begin, enter, add |
| `Publisher.SignalKPublisher.PublishCurrent` | src/signalk_mini/publisher.hpp:189-238 | One pass: complete means every item from the cursor on was delivered; refused means the delivered items and the items from the new cursor on are together exactly those from the old cursor on. Every accepted delta is header, its items and trailer. With room for one delta the pass finishes or delivers something |
| `SnapshotRuns.ExactlyOnce` | src/signalk_mini/publisher.hpp:183-238 | For an unchanged model and any refusals, passes continued at the returned cursor deliver every value of every selected field and AIS slot exactly once and in order |
| `SnapshotRuns.EveryKeyOnce` | src/signalk_mini/publisher.hpp:183-238 | If values change between passes but not their number per position, every (position, index) is still delivered exactly once and in order |
| `SnapshotRuns.CycleEnds` | src/signalk_mini/signalk_stream_server.hpp:277-299 | Over the passes of any cycle in which every unfinished pass delivers something, there are no more passes than values; that they do so is `StreamServer.CatchUpCycle` |
| `PendingChanges.PublishPending` | src/signalk_mini/publisher.hpp:125-181 | Takes as many changes from the queue as the limit per tick allows; the accepted deltas hold exactly their entries, in order and under the right header, a repeat of the path just sent being left out |
| `PendingChanges.PublishChange` | src/signalk_mini/publisher.hpp:137-176 | One change: a repeat is skipped, a new source or a full batch starts a new delta, the AIS change sends all targets |
| `PendingChanges.OwnValueSent` | src/signalk_mini/publisher.hpp:168-176 | For a path with several sources the change is sent with the value of its own source, whatever the model holds |
| `PendingChanges.NothingLost` | src/signalk_mini/publisher.hpp:134-157 | If a source has one value per path, leaving repeats out loses no entry and adds none |
| `StreamServer.EmptyQueueTakesFrame` | src/signalk_mini/signalk_stream_server.hpp:155-169 | An empty queue has room for every frame of a given size (up to a whole delta with header) if and only if neither the transport buffer nor the high-water mark is smaller |
| `StreamServer.EmptyQueueTakesDelta` | src/signalk_mini/signalk_stream_server.hpp:155-169 | In both builds and for any configured sizes, an empty queue takes a whole delta with its WebSocket header: the limit is never below one delta |
| `StreamServer.RoomIffWithin` | src/signalk_mini/signalk_stream_server.hpp:155-169 | A frame has room if and only if the queue with it stays within the buffer of the transport, the high-water mark and the configured limit, which is at least one delta |
| `Frames.TakesDelta` | src/signalk_mini/signalk_stream_server.hpp:172-183 | A client that takes frames of a size takes every delta of at most that size, its line end left out for a WebSocket client |
| `Frames.FrameRoundTrip` | modules/async-event-loop/src/async_event_loop/websocket_server.hpp:218-224 | What a WebSocket client reads by section 5.2 of RFC 6455 is one final, unmasked text frame with the text of the delta |
| `StreamServer.StreamDeliveryState.RequestResync` | src/signalk_mini/signalk_stream_server.hpp:248-257 | A request during a pass asks for another full pass; otherwise it starts one from the beginning |
| `StreamServer.StreamDeliveryState.PumpOne` | src/signalk_mini/signalk_stream_server.hpp:277-299 | A pump runs one pass, stores its cursor, and on completion clears the flags or starts over; only whole frames reach the output, which stays within its limits, for TCP and WebSocket clients; an unfinished pass stops at a delta of the next values, and if that is the first one, the client does not take it now |
| `StreamServer.PumpOnce` | src/signalk_mini/signalk_stream_server.hpp:277-299 | A pump into an empty queue completes the pass, or delivers something, or the first delta it builds is one the client does not take even now; what it delivered and what is left are what was left before |
| `StreamServer.RefusedIffLong` | src/signalk_mini/signalk_stream_server.hpp:171-183 | With room for every delta, a client refuses one if and only if it is a WebSocket client and the text is above 512 bytes |
| `StreamServer.PumpTaken` | src/signalk_mini/signalk_stream_server.hpp:277-299 | If the client takes frames of the size of the JSON buffer, a pump into an empty queue completes the pass or delivers something |
| `StreamServer.CatchUpPass` | src/signalk_mini/signalk_stream_server.hpp:277-299 | A pass takes at most as many pumps as there are values left (at least one) and delivers exactly these |
| `StreamServer.CatchUpCycle` | src/signalk_mini/signalk_stream_server.hpp:277-299 | A client whose queue drains between pumps leaves catch-up within that many pumps, with a second full pass if one was requested meanwhile, having been sent exactly the remaining values in order; for a WebSocket client if the JSON buffer is at most 515 bytes |
| `StreamServer.PassStuck` | modules/async-event-loop/src/async_event_loop/websocket_server.hpp:218-224 | A pass stops before a value whose delta is longer than a WebSocket frame may be, and delivers nothing |
| `StreamServer.StuckCycle` | src/signalk_mini/signalk_stream_server.hpp:277-299 | A WebSocket client that waits for such a value stays in catch-up and is sent nothing, however often it is pumped and drained |
| `StreamServer.LargeBufferStuck` | src/signalk_mini/signalk_stream_server.hpp:177-183 | Every JSON buffer above 515 bytes can make such a delta, so 515 is the exact bound for WebSocket clients |
| `ChangeQueue.ModelChangeQueue.constructor` | src/signalk_mini/model_store.hpp:81-88 | An empty queue |
| `ChangeQueue.ModelChangeQueue.Push` | src/signalk_mini/model_store.hpp:28-42 | The ring buffer refines a bounded keyed FIFO: refresh in place if the key is pending, else append, dropping only the oldest and only when full |
| `ChangeQueue.ModelChangeQueue.Coalesce` | src/signalk_mini/model_store.hpp:66-79 | The backward search finds a pending change with the key if and only if there is one |
| `ChangeQueue.ModelChangeQueue.Pop` | src/signalk_mini/model_store.hpp:44-50 | Takes the oldest change |
| `ChangeQueue.PushedDistinct` | src/signalk_mini/model_store.hpp:28-79 | Pending keys stay distinct |
| `ChangeQueue.Conservation` | src/signalk_mini/model_store.hpp:28-79 | Over any run: marked = enqueued + coalesced and enqueued = popped + dropped + size; keys are distinct |
| `ChangeQueue.PendingIsNewest` | src/signalk_mini/model_store.hpp:66-79 | Every pending change carries the newest sequence number and time marked for its key |
| `ChangeQueue.MarkedWaits` | src/signalk_mini/model_store.hpp:28-79 | A marked field and source waits in the queue until it is the oldest and is taken or gives up its place |
| `ChangeQueue.OrderKept` | src/signalk_mini/model_store.hpp:28-79 | Marking a waiting key leaves every key in its place, a new key comes last, the oldest leaves first |
| `ChangeQueue.ModelStore.MarkChanged` | src/signalk_mini/model_store.hpp:217-232 | Marking is the ledger step of the specification, records the source of the field and the time and source of the autopilot state, and tells the observer the previous source and whether there was a value |
| `ChangeQueue.ModelStore.TakeChange` | src/signalk_mini/model_store.hpp:44-50 | Taking a change is the ledger step of the specification |
| `CatchUp.MarkKeeps` | src/signalk_mini/model_store.hpp:217-232 | Marking a change keeps every client accounted for, unless the change it displaced is recorded as lost |
| `CatchUp.RunsDeliver` | src/signalk_mini/signalk_stream_server.hpp:453-465 | Whole runs of entries, in any order and number, leave a client with the value of every path among them and touch no other path |
| `CatchUp.OfferOutcome` | src/signalk_mini/signalk_stream_server.hpp:453-465 | A client that refuses one of several deltas will be sent everything again; any other has received every entry |
| `CatchUp.PublishKeeps` | src/signalk_mini/signalk_stream_server.hpp:453-465 | Publishing keeps every client accounted for: it has received every entry of the deltas it took, or is marked for catch-up; a change whose path has no value any more is taken without sending anything |
| `CatchUp.PumpKeeps` | src/signalk_mini/signalk_stream_server.hpp:277-299 | A catch-up pass, finished or stopped anywhere, even inside a value, keeps the client accounted for by the entries it was sent |
| `CatchUp.InvKept` | src/signalk_mini/signalk_stream_server.hpp:243-308 | Every transition keeps the no-lost-update invariant for every client and path |
| `CatchUp.NoLostUpdate` | src/signalk_mini/signalk_stream_server.hpp:243-308 | In every reachable state each path that has something to send is up to date at the client, still queued, lost to queue overflow, or still to come |
| `CatchUp.QuietReachableAgrees` | src/signalk_mini/signalk_stream_server.hpp:243-308 | With an empty queue that never overflowed, a client that is not catching up has received exactly the entries of every current path, unless there are none |
| `Delivery.PumpReaches` | src/signalk_mini/signalk_stream_server.hpp:277-299 | A snapshot pass over a view of the model is an enabled pump of the protocol: it sends for every path what that step delivers |
| `Delivery.ShowsInScope` | src/signalk_mini/signalk_stream_server.hpp:277-299 | One view of the model, limited to the scope of each client, is what its snapshot shows |
| `Delivery.PumpIsStep` | src/signalk_mini/signalk_stream_server.hpp:277-299 | A pump of the server with a clock and a buffer is a step of the catch-up protocol: its flags and cursor are those after the step, and the deltas sent, applied to what the client had, are what it has after the step |
| `Delivery.BlindPump` | src/signalk_mini/publisher.hpp:189-193 | Without a clock or a buffer a pump sends nothing and ends the pass, which is a step of the protocol if and only if nothing was left to send |
| `Delivery.BlindPumpLoses` | src/signalk_mini/publisher.hpp:189-193 | Otherwise a client that had received nothing is left without a value that nothing will bring |
| `Delivery.SentIsRuns` | src/signalk_mini/publisher.hpp:134-176 | What is sent for queued changes are the whole runs of entries of the paths sent |
| `Delivery.OrderCovers` | src/signalk_mini/publisher.hpp:157-157 | Leaving out a repeat of the path just sent leaves no path out |
| `Delivery.PublishIsStep` | src/signalk_mini/publisher.hpp:125-181 | A publish is a step of the catch-up protocol, values that fit no delta and changes that no longer map included: its deltas hold, delta by delta, exactly the entries the step offers |
| `Delivery.QuietClientHolds` | src/signalk_mini/signalk_stream_server.hpp:243-308 | A quiet client has received exactly the entries the value of a current field is broken into, and the whole value if and only if that fits a delta |
| `ServerRuns.DeltaFanout.WriteDelta` | src/signalk_mini/signalk_stream_server.hpp:453-465 | A delta is queued as one whole frame for every client that has room for it, whose queue stays within its limits, and every other client is marked for catch-up |
| `ServerRuns.DeltaFanout.WriteAll` | src/signalk_mini/signalk_stream_server.hpp:453-465 | The same for the deltas of a publish, one after the other |
| `ServerRuns.FanoutIsOffer` | src/signalk_mini/signalk_stream_server.hpp:453-465 | Fan-out leaves flags and cursor of each client as the publish of the protocol does |
| `ServerRuns.CallIsStep` | src/signalk_mini/signalk_stream_server.hpp:243-308 | Every call of the server (mark, expiry, publish, pump, start and stop of a stream) is a step of the protocol |
| `ServerRuns.RunOfServer` | src/signalk_mini/signalk_stream_server.hpp:62-68 | Any sequence of calls, with any acceptance of deltas, is a run of the catch-up protocol |
| `ServerRuns.ServerLosesNothing` | src/signalk_mini/signalk_stream_server.hpp:243-308 | After any calls, for each client and current path: the client has exactly the entries sent for it, or it is queued, or the queue has overflowed, or it is still to come |
| `ServerRuns.QuietServer` | src/signalk_mini/signalk_stream_server.hpp:243-308 | Once the queue is empty and never overflowed, a client that is not catching up has everything |
| `WebSocketDecoder.RunSplit` | modules/async-event-loop/src/async_event_loop/websocket_server.hpp:351-373 | The events depend only on the bytes, not on how reads split them |
| `WebSocketDecoder.RunSafe` | modules/async-event-loop/src/async_event_loop/websocket_server.hpp:475-528 | Message size plus remaining frame bytes never exceed the maximum, and control payloads fit |
| `WebSocketDecoder.ActMonotone` | modules/async-event-loop/src/async_event_loop/websocket_server.hpp:433-488 | A decision made on some input is the same on any longer input |
| `WebSocketDecoder.XorTwice` | modules/async-event-loop/src/async_event_loop/websocket_server.hpp:497-511 | Unmasking inverts masking, byte by byte |
| `WebSocketDecoder.XorIsBitwise` | modules/async-event-loop/src/async_event_loop/websocket_server.hpp:497-511 | Unmasking a byte is the exclusive or of its bits |
| `WebSocketMessages.HeaderRoundTrip` | modules/async-event-loop/src/async_event_loop/websocket_server.hpp:433-453 | Parsing an encoded header (section 5.2 of RFC 6455) with any of the three length forms gives it back |
| `WebSocketMessages.MaskedByClient` | modules/async-event-loop/src/async_event_loop/websocket_server.hpp:497-511 | The decoder undoes the masking of section 5.3 of RFC 6455: octet i with key octet i modulo 4 |
| `WebSocketMessages.MalformedHeader` | modules/async-event-loop/src/async_event_loop/websocket_server.hpp:433-440 | A header is refused as malformed if and only if a reserved bit is set or the mask bit is not |
| `WebSocketMessages.RefusedFrame` | modules/async-event-loop/src/async_event_loop/websocket_server.hpp:454-476 | A frame is refused if and only if section 5 of RFC 6455 does not allow it there, or it makes the message too large |
| `WebSocketMessages.CloseAnswered` | modules/async-event-loop/src/async_event_loop/websocket_server.hpp:545-550 | A close frame is answered with its payload and ends the connection |
| `WebSocketMessages.RunControlFrame` | modules/async-event-loop/src/async_event_loop/websocket_server.hpp:495-552 | A masked control frame between data frames changes nothing but answers a ping or closes |
| `WebSocketMessages.RunDataFrame` | modules/async-event-loop/src/async_event_loop/websocket_server.hpp:502-563 | A masked data frame adds its unmasked payload to the message |
| `WebSocketMessages.ChunksJoin` | modules/async-event-loop/src/async_event_loop/websocket_server.hpp:519-577 | The chunks and the remainder concatenate to the payload, cut only at multiples of the chunk size |
| `WebSocketMessages.MessageRoundTrip` | modules/async-event-loop/src/async_event_loop/websocket_server.hpp:433-577 | Any masked message, fragmented anywhere with pings and pongs in between (sections 5.3 to 5.5 of RFC 6455), is delivered as one begin, its payload in chunks and one end; every ping is answered in order |
| `WebSocketSlot.Slot.Consume` | modules/async-event-loop/src/async_event_loop/websocket_server.hpp:655-662 | Consuming moves the rest of the input to the front |
| `WebSocketSlot.Slot.FlushChunk` | modules/async-event-loop/src/async_event_loop/websocket_server.hpp:565-577 | A non-empty chunk is handed over and cleared |
| `WebSocketSlot.Slot.ReadHeader` | modules/async-event-loop/src/async_event_loop/websocket_server.hpp:433-453 | The in-place header reader is the header parser |
| `WebSocketSlot.Slot.BeginFrame` | modules/async-event-loop/src/async_event_loop/websocket_server.hpp:433-488 | Starting a frame is one step of the decoder |
| `WebSocketSlot.Slot.FinishFrame` | modules/async-event-loop/src/async_event_loop/websocket_server.hpp:530-563 | Finishing a frame is the decoder's |
| `WebSocketSlot.Slot.ConsumeFramePayload` | modules/async-event-loop/src/async_event_loop/websocket_server.hpp:490-528 | The nested copy loops are steps of the decoder; the later size check never fires |
| `WebSocketSlot.Slot.ProcessSlot` | modules/async-event-loop/src/async_event_loop/websocket_server.hpp:351-373 | Processing the buffer runs the decoder on it; an open connection is left with fewer than 14 unread bytes |
| `WebSocketSlot.Slot.OnData` | modules/async-event-loop/src/async_event_loop/websocket_server.hpp:159-180 | For any reads, the handler sees the decoder's events of all bytes read so far; the full-buffer error never fires |
| `ModelTree.Under` | src/signalk_mini/signalk_full_model_writer.hpp:166-173 | What lies below a prefix, joined to it, is the path |
| `ModelTree.SegmentLength` | src/signalk_mini/signalk_full_model_writer.hpp:175-178 | The next segment ends at the first dot or the end |
| `ModelTree.FindsWinner` | src/signalk_mini/signalk_full_model_writer.hpp:249-286 | For prefix-free paths the written tree holds, at every path, exactly the leaf of its newest, lowest-index field, and nothing else |
| `ModelTree.FindsNewest` | src/signalk_mini/signalk_full_model_writer.hpp:249-286 | In plain terms: the tree holds at each path the newest value that is not the AIS table, the lowest field index among equally new ones |
| `ModelTree.OddPathNotFound` | src/signalk_mini/signalk_full_model_writer.hpp:261-262 | Nothing is found at a path with an empty segment |
| `ModelTree.TreeIsProper` | src/signalk_mini/signalk_full_model_writer.hpp:249-286 | Keys are distinct in every object and no nested object is empty |
| `ModelTree.AllFoundIffPrefixFree` | src/signalk_mini/signalk_full_model_writer.hpp:227-286 | Every current path is shown if and only if no current path continues another |
| `ModelTree.WrittenIffNamesFit` | src/signalk_mini/signalk_full_model_writer.hpp:265-282 | The buffers of the writer suffice if and only if every segment of a shown path is below 96 bytes and every path above one below 192 |
| `ModelTree.ShortPathsWritten` | src/signalk_mini/signalk_full_model_writer.hpp:265-282 | In particular paths below 96 bytes always fit |
| `ModelTree.WrittenIffBelow` | src/signalk_mini/signalk_full_model_writer.hpp:249-286 | Something is written below a prefix if and only if a current path continues it with a non-empty segment |
| `ModelTree.WrittenIffUnder` | src/signalk_mini/signalk_full_model_writer.hpp:194-204 | With the paths the server has, that is exactly when a current path lies below the prefix, which is what is asked before the object is opened |
| `ModelTree.SelectorsAgree` | src/signalk_mini/signalk_typed_view.hpp:203-214 | The snapshot selector, the exact-path selector and the segment selector choose the same field |
| `ModelTree.SubtreeAgrees` | src/signalk_mini/signalk_full_model_writer.hpp:340-366 | What is written below a path is the node the whole tree has there |
| `ModelWriter.HasBranchValues` | src/signalk_mini/signalk_full_model_writer.hpp:194-204 | The search finds a current path below the prefix if and only if there is one |
| `ModelWriter.FindExactValue` | src/signalk_mini/signalk_full_model_writer.hpp:206-225 | The search returns the newest, lowest-index field of the path, or that there is none |
| `ModelWriter.IsSelectedSegmentCandidate` | src/signalk_mini/signalk_full_model_writer.hpp:227-247 | True if and only if no other field through the segment is newer, or as new with a lower index |
| `ModelWriter.IsSelectedPathCandidate` | src/signalk_mini/signalk_typed_view.hpp:203-214 | The same for fields with the same path |
| `ModelWriter.WriteBranch` | src/signalk_mini/signalk_full_model_writer.hpp:249-286 | Succeeds if and only if every name fits its buffer and the text fits the output, and then the text is the printed tree with correct commas |
| `ModelWriter.WriteSelfVessel` | src/signalk_mini/signalk_full_model_writer.hpp:330-338 | Succeeds if and only if names and text fit, and then the vessel object is its identity members and the tree after a comma if there is any |
| `ModelWriter.WriteSelfPath` | src/signalk_mini/signalk_full_model_writer.hpp:340-366 | A path is not found if and only if it is neither a current value nor above one; otherwise its leaf or the object below it is written, or the write fails exactly when names or text do not fit |
| `ModelWriter.AnswerMatchesTree` | src/signalk_mini/signalk_full_model_writer.hpp:340-366 | A path's answer is what the whole tree holds at that path |
| `ModelDocument.TrieIsJson` | src/signalk_mini/signalk_full_model_writer.hpp:249-286 | The written tree is the printed form of one JSON tree |
| `ModelDocument.VesselIsJson` | src/signalk_mini/signalk_full_model_writer.hpp:330-338 | The vessel text is the printed form of one object |
| `ModelDocument.VesselPrintable` | src/signalk_mini/signalk_full_model_writer.hpp:330-338 | With paths and leaves within 32 levels it is a document of the kind the resumed REST responses are about |
| `JsonFramer.ValidNumber` | modules/async-event-loop/src/async_event_loop/protocol_reader.hpp:339-381 | True if and only if the text is a number by section 6 of RFC 8259 |
| `JsonFramer.RunConcat` | modules/async-event-loop/src/async_event_loop/protocol_reader.hpp:302-312 | The result does not depend on how the stream is polled |
| `JsonFramer.FramesEveryValue` | modules/async-event-loop/src/async_event_loop/protocol_reader.hpp:419-585 | Any sequence of complete values that fit the buffer, numbers followed by a byte that cannot belong to them, is emitted byte for byte and in order, with no overflow |
| `JsonFramer.TreeIsValue` | modules/async-event-loop/src/async_event_loop/protocol_reader.hpp:486-513 | Every printed object or array is such a value |
| `JsonFramer.FullBufferOverflows` | modules/async-event-loop/src/async_event_loop/protocol_reader.hpp:383-391 | A value that has filled the buffer and goes on is dropped and counted as one overflow |
| `JsonSoundness.StepSound` | modules/async-event-loop/src/async_event_loop/protocol_reader.hpp:419-585 | Every byte keeps the buffer the beginning of a value and emits at most one text, which is a complete value within the buffer size |
| `JsonSoundness.FramesOnlyValues` | modules/async-event-loop/src/async_event_loop/protocol_reader.hpp:302-312 | For any bytes: every emitted text is a complete value within the buffer size, and the stream is the emitted texts in order with the skipped bytes around them and the buffered beginning of a value at the end |
| `JsonReader.JsonProtocolReader.constructor` | modules/async-event-loop/src/async_event_loop/protocol_reader.hpp:587-599 | A new reader is idle |
| `JsonReader.JsonProtocolReader.Append` | modules/async-event-loop/src/async_event_loop/protocol_reader.hpp:383-391 | A byte is stored, or everything is dropped when the buffer is full |
| `JsonReader.JsonProtocolReader.PushContainer` | modules/async-event-loop/src/async_event_loop/protocol_reader.hpp:393-401 | A container is opened, or everything is dropped when the stack is full |
| `JsonReader.JsonProtocolReader.PopContainer` | modules/async-event-loop/src/async_event_loop/protocol_reader.hpp:403-417 | A container is closed if the bracket matches |
| `JsonReader.JsonProtocolReader.ConsumeIdle` | modules/async-event-loop/src/async_event_loop/protocol_reader.hpp:439-484 | The in-place step is the automaton's |
| `JsonReader.JsonProtocolReader.ConsumeContainer` | modules/async-event-loop/src/async_event_loop/protocol_reader.hpp:486-513 | The same inside a container; since the stack never outgrows the buffered bytes, its overflow branch is never taken |
| `JsonReader.JsonProtocolReader.ConsumeNumber` | modules/async-event-loop/src/async_event_loop/protocol_reader.hpp:532-544 | The byte after a number is consumed again as the start of something else |
| `JsonReader.JsonProtocolReader.Poll` | modules/async-event-loop/src/async_event_loop/protocol_reader.hpp:302-312 | Polling any number of bytes runs the automaton on them |
| `Dsc.FindDuplicate` | modules/nmea0183/src/nmea0183_connector/nmea_dsc.hpp:144-157 | Finds the first stored call with the key inside the window, if and only if there is one |
| `Dsc.CommitKeeps` | modules/nmea0183/src/nmea0183_connector/nmea_dsc.hpp:324-418 | Committing keeps the history, the counters and the ledger |
| `Dsc.InvKept` | modules/nmea0183/src/nmea0183_connector/nmea_dsc.hpp:420-536 | Every sentence at a positive, not earlier time keeps the invariant |
| `Dsc.WholeRun` | modules/nmea0183/src/nmea0183_connector/nmea_dsc.hpp:127-173 | Over any run: each DSC sentence is committed at most once and in order, or displaced, or pending; commits = calls + duplicates; every call is counted once by kind; stored = min(calls, 4), next = calls mod 4; stored calls with one key are more than 10 s apart |
| `Dsc.FirstCall` | modules/nmea0183/src/nmea0183_connector/nmea_dsc.hpp:296-418 | A first call is stored, counted by its codes (112 distress, 110 urgency, 108 safety) and raises or repeats the alert of that kind only |
| `Dsc.FirstAck` | modules/nmea0183/src/nmea0183_connector/nmea_dsc.hpp:251-294 | A first acknowledgement acknowledges the alert with its sender, category, nature and position, or counts as an orphan |
| `Dsc.RepeatedCall` | modules/nmea0183/src/nmea0183_connector/nmea_dsc.hpp:388-401 | A repeat within ten seconds is counted with the stored call and not stored again |
| `Dsc.WaitsForExpansion` | modules/nmea0183/src/nmea0183_connector/nmea_dsc.hpp:483-489 | A sentence flagged E or e waits for its expansion and displaces one that was waiting |
| `Dsc.WaitsHalfASecond` | modules/nmea0183/src/nmea0183_connector/nmea_dsc.hpp:420-431 | A call waits for half a second and is then committed as timed out |
| `Dsc.ExpansionCommits` | modules/nmea0183/src/nmea0183_connector/nmea_dsc.hpp:496-536 | A complete expansion commits the waiting call unless it is from another known sender or source |
| `DscReceiver.DscComm.FindRecentDuplicate` | modules/nmea0183/src/nmea0183_connector/nmea_dsc.hpp:144-157 | The loop returns the index of the specification, or -1 |
| `DscReceiver.DscComm.PushRecentCall` | modules/nmea0183/src/nmea0183_connector/nmea_dsc.hpp:159-173 | The ring slot, the index and the count |
| `DscReceiver.DscComm.CommitAlert` | modules/nmea0183/src/nmea0183_connector/nmea_dsc.hpp:251-294 | An alert is raised, repeated or acknowledged; acknowledging an unknown alert does nothing |
| `DscReceiver.DscComm.PromoteNotifications` | modules/nmea0183/src/nmea0183_connector/nmea_dsc.hpp:296-321 | The alert of the message's kind, and its counter |
| `DscReceiver.DscComm.CommitCall` | modules/nmea0183/src/nmea0183_connector/nmea_dsc.hpp:324-418 | A call is stored, or replaces the recent call it repeats |
| `DscReceiver.Receiver.ExpirePending` | modules/nmea0183/src/nmea0183_connector/nmea_dsc.hpp:420-431 | A pending call is committed once its expansion is overdue |
| `DscReceiver.Receiver.ApplyDsc` | modules/nmea0183/src/nmea0183_connector/nmea_dsc.hpp:433-494 | A DSC sentence is committed, or waits for its expansion; a short one is refused |
| `DscReceiver.Receiver.ApplyDse` | modules/nmea0183/src/nmea0183_connector/nmea_dsc.hpp:496-536 | An expansion commits the pending call it matches |
| `DscReceiver.Receiver.Receive` | modules/nmea0183/src/nmea0183_connector/nmea_dsc.hpp:420-536 | Receiving a sentence is the step of the specification |

## Left out

- The WebSocket handshake, SHA-1, base64, HTTP parsing, sockets, timers and the event loop.
- Handlers that close the connection from inside a callback; the decoder's handler only records events.
- REST jobs as a whole: the response header, the job table, its timeout, and a path that vanishes between passes.
- Object trees, numbers and leaf objects as ArduinoJson and `snprintf` write them: they are given texts or trees.
- The mapping of model fields to paths and values, and which values are current: a view is given to each pass.
- The server clock, which is written into the model without a queued change: the catch-up invariant does not cover its path.
- Two fields that share a path with different values, and a source's own value of a multi-source path: the catch-up invariant has one value per path, and `PublishIsStep` asks for that.
- Clients that asked for no cached values, and the stall timeout that closes a client whose queue does not drain.
- Counters of dropped, shortened, published and caught-up values, and wrap-around of any counter or cursor.
- `decode_dse_payload`, the reassembly of fragmented DSE text, DSI and DSR sentences, and the other NMEA sentences.
- The line, header-payload and fixed-frame readers.
- `SourceValueTable` and the connection registry.
- PublishCurrent: with no usable JSON buffer or no timestamp the pass reports completion and sends nothing, as the code does; the delivery statement covers the other case.
- PublishPending: a delta a client cannot take is not part of this statement; `Delivery.PublishIsStep` and the catch-up protocol cover it.
- CatchUpCycle: stated for an unchanging model, a client whose queue drains between pumps, and a usable JSON buffer and clock, without which a pass ends at once.
- StuckCycle: about a value that is too long on its own; that a delta of several values above 512 bytes is refused is `PumpOnce` with `RefusedIffLong`, and that the next pass builds it again is not stated.
- CycleEnds: takes it as given that every unfinished pass delivers something; `StreamServer.CatchUpCycle` proves it.
- PumpIsStep: a pump without a timestamp or a JSON buffer is not covered; it ends the catch-up with nothing sent, and `BlindPump` says when that is a step.
- RunOfServer: every pump has a timestamp and a JSON buffer, for the same reason; what a delta is cut from and who accepts it is arbitrary.
- VesselPrintable: that paths and leaves together stay within 32 levels is taken as given; the server's table of paths is not part of this model.
- MarkChanged: the presence bits and the source array are one map.
- QuietClientHolds: about the model's own fields; AIS targets are covered by `QuietReachableAgrees`.
- WriteSelfVessel: field paths are assumed to have no empty segment, as all paths of the server do; otherwise the code could leave a comma with nothing after it.
- RunPass: what happens to a connection after a failed pass is not modelled.
