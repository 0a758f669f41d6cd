# Session and queue bookkeeping of the terplounge server, in Dafny

terplounge lets one speaker practise simultaneous interpretation. The browser
streams microphone audio over a websocket. The server cuts the audio at
silences, numbers each piece and queues it for transcription. It finalizes the
session once the last piece has come back. It can then compare the transcript
with a reference translation.

This project models the core of that server and proves properties of the model.
The core is the per-session state machine and the session registry
(`server/src/session.rs`), the translation job queue (`server/src/queue.rs`),
the comparison helpers (`server/src/compare.rs`) and the resolution of resource
paths (`server/src/metadata.rs`).

Modules, one per part of the program:

- `Util`: `Option` and `Result`, the shapes of Rust's `Option` and of the
  server's `E<T>`.
- `Audio`: a sample is the 32-bit pattern of a little-endian `f32`, and
  `DecodeSamples` turns a binary message into samples.
- `Queue`: `TranslationRequest` and the class `TranslationQueue`. Its field
  `pending` is the FIFO of requests sent and not yet received.
- `Session`: the record `SessionData`, one function per closure passed to
  `mutate_session`, the lifecycle predicates and the class `Registry`.
  `Registry` holds `SESSIONS` and `NEXT_USER_ID` as the fields `sessions` and
  `nextUserId`.
- `Dispatch`: the consumer loop `subscribe`. It is a module of its own because
  it reads both the queue and the registry.
- `Compare`: `escape`, and the mapping from diff changes to `Change` records.
- `Metadata`: `from_resource_path` and `from_filename`.

Things the server takes from outside become parameters:

- the current time, as integer seconds (`now`);
- a freshly generated uuid (`freshUuid`);
- the silence detector's pivot (`pivot`, at most the length of the buffer it
  was computed on);
- `SEND_SAMPLE_MINIMUM_TIME_SECONDS` (`minimumSendSeconds`);
- whether writing the recording succeeded (`persistOk`);
- the count the translation store reports after a response is added (`added`);
- the parsed listing of saved sessions (`RecordingsListing`);
- the `ASSETS_DIR` environment variable (`assetsDirEnv`);
- the outcome of reading and parsing a metadata file (`loaded`);
- whether the translator succeeds on a request (`translate`).

Each registry operation is atomic: locks and runtimes are not modelled.

Points about the code worth knowing:

- Each session keeps its responses in its own store, `translations`. The
  session has no completed-segment counter. It keeps a request counter, and the
  model keeps only the count the store reports.
- Closing is a mark (`lastSequence`). Finalization happens when a response for
  the last segment arrives and the store's count has passed the mark.
- The queue drops requests whose session is missing or no longer valid.
- `user_connected` waits at most `RECV_TIMEOUT_SECONDS` (15) for each websocket
  message. When that time elapses, its loop ends and it marks the session for
  closure. That receive loop is not modelled.
- The intended filter of `expire_sessions` removes the sessions not updated for
  more than 86400 seconds. As written, the code blocks at the first expired
  session, because `remove_session` waits for the write lock while the read
  guard is still held. The model states the intended filter. No caller of
  `expire_sessions` appears in the server.

## Model

| member | source | states |
|---|---|---|
| `Audio.DecodeSamples` | server/src/session.rs:313-316 | A binary message of n bytes gives exactly n / 4 samples. Sample i is built from bytes 4i..4i+3, little-endian. |
| `Audio.DecodeIgnoresTrailingBytes` | server/src/session.rs:313-314 | The bytes after the last complete group of four do not change the decoded samples. |
| `Audio.SampleRoundTrip` | server/src/session.rs:315 | Decoding four bytes gives back the sample the client encoded as little-endian bytes. |
| `Audio.DecodeEncode` | server/src/session.rs:313-316 | Decoding a client's encoding of a run of samples gives back that run. No sample is lost, invented or reordered. |
| `Queue.TranslationQueue.constructor` | server/src/queue.rs:18-24 | A new queue has an empty channel and keeps its receiver. |
| `Queue.TranslationQueue.Enqueue` | server/src/queue.rs:26-34 | Enqueue appends exactly this request at the back and leaves earlier requests unchanged. It fails, changing nothing, only when the send fails. |
| `Queue.TranslationQueue.QueueProcess` | server/src/queue.rs:36-41 | Every received request is forwarded, in receive order. If sends fail, the first send fails and nothing is forwarded. |
| `Queue.TranslationQueue.Pop` | server/src/queue.rs:45 | A receive removes exactly the head of the FIFO and returns it. |
| `Session.NewSession` | server/src/session.rs:84-125 | A new session is Open: sender present, `valid`, no last sequence. Its buffer is empty and its counters are 0. Its uuid is the supplied one if given, else the fresh one. |
| `Session.StatusOf` | server/src/session.rs:183-192 | The definition of `status`: it copies language, uuid, resource and sample rate, reports `sequence_number` as the job count and the store count as the completed count. Its properties across the lifecycle are `StatusAcrossLifecycle`. |
| `Session.StatusAcrossLifecycle` | server/src/session.rs:183-192 | The status reports the request counter as the job count and the store count as the completed count. It copies language, uuid, resource and sample rate. A send or a closing flush adds one job; finalizing changes nothing in the status. |
| `Session.SendKeepsEverySample` | server/src/session.rs:318-356 | The payload is cut from the buffer fetched before the append. The buffer kept afterwards is cut from the grown buffer. Payload followed by kept buffer equals old buffer followed by new samples, and the counter grows by one. |
| `Session.TransitionsKeepConsistency` | server/src/session.rs:318-365 | Every closure applied to a session keeps it consistent: an invalid session has no sender, and the last sequence never exceeds the counter. |
| `Session.OpenThenClosing` | server/src/session.rs:504-515 | Marking a used Open session for closure makes it Closing. The last sequence becomes the old counter, the counter grows by one and the buffer is emptied. |
| `Session.FinalizeDueExactly` | server/src/session.rs:233-247 | On a consistent session, finalization is due exactly when a last sequence is set, the response is the last segment, and the translation count exceeds the last sequence. Without a last sequence it is never due. |
| `Session.FinalizedIsAbsorbing` | server/src/session.rs:151-160 | The finalize closure changes nothing on a finalized session, and no session closure leaves the Finalized state. Through `mutate_session_sync` the server still refreshes `updated_at`. |
| `Session.Restored` | server/src/session.rs:582-606 | A restored session is Finalized: no sender, not valid. Its counter is 1, its last sequence is `Some(1)` and its buffer is empty. Its identifying fields come from the saved data. |
| `Session.RestoredSessions` | server/src/session.rs:574-607 | The restored sessions get exactly the ids 0..n-1, the i-th in listing order getting id i. |
| `Session.Unexpired` | server/src/session.rs:518-526 | The expiry filter keeps exactly the sessions whose age `now - updatedAt` is at most 86400 seconds, each unchanged. |
| `Session.ExpiryIsIdempotent` | server/src/session.rs:518-526 | A second sweep at the same time removes nothing more. |
| `Session.ExpiryIsMonotone` | server/src/session.rs:518-526 | A later sweep keeps no session an earlier sweep removed. A session updated at `now` survives the sweep at `now`. |
| `Session.Registry.constructor` | server/src/session.rs:28-29 | At startup the table is empty and the id counter is 1. |
| `Session.Registry.MutateSession` | server/src/session.rs:281-289 | On an unknown id nothing changes. On a known id the closure is applied, `updatedAt` is refreshed, and no other session changes. |
| `Session.Registry.FindSessionWithUuid` | server/src/session.rs:271-279 | It returns an id whose session has the uuid. It returns `None` exactly when no session has it. |
| `Session.Registry.Connect` | server/src/session.rs:374-428 | The new session gets the old counter value as its id, and the counter grows by one. That id was not in use. A new Open session is registered under it. |
| `Session.Registry.UserMessage` | server/src/session.rs:305-372 | A non-binary message, an unknown session or a session without a sender changes nothing. Otherwise the n/4 decoded samples are appended. With a pivot and a successful enqueue, the request carries the pre-increment counter and the payload cut from the pre-append buffer. Payload plus new buffer equals old buffer plus new samples. The counter grows by one. The silence length is old + pivot when the pivot equals the minimum send length, else 0. A failed enqueue removes the sender and clears `valid`, and the buffer is kept. A failed persist returns an error after the append. The closures it applies are `AppendSamples` (session.rs:318), `AdvanceAfterSend` (352-356) and `Abandon` (361-364). |
| `Session.Registry.MarkSessionForClosure` | server/src/session.rs:467-516 | An unused session (counter 0) only loses its sender. Otherwise the whole buffer is enqueued as request s. Afterwards the buffer is empty, the last sequence is `Some(s)` and the counter is s+1, even if the enqueue failed. The closures it applies are `DropSender` (478-480) and `MarkLast` (510-514). |
| `Session.Registry.MarkSessionForClosureUuid` | server/src/session.rs:461-465 | A uuid that no session has changes nothing. Otherwise some session with that uuid is closed exactly as `mark_session_for_closure` closes it. An unused session loses its sender. A used one is flushed as its last request and marked, and every other session is unchanged. The set of ids is never changed. |
| `Session.Registry.ProcessTranscription` | server/src/session.rs:211-249 | If the store rejects the response, it returns an error and changes nothing. Otherwise the session's count is updated. The session is finalized (sender dropped, `valid` cleared, `updatedAt` refreshed) exactly when finalization is due. The guard is the predicate `FinalizeDue` (233-236), and the closure is `Finalize` (155-160). The subtraction `num_segments - 1` is reached, and panics at 0, only when the store accepted the response and the session has a last sequence. That case is the precondition. |
| `Session.Registry.ExpireSessions` | server/src/session.rs:518-526 | It removes exactly the sessions older than 86400 seconds and keeps all the others unchanged. |
| `Session.Registry.RestoreSessions` | server/src/session.rs:550-617 | Without RECORDINGS_DIR nothing changes. On a read error nothing changes and an error is returned. Otherwise the saved sessions are inserted under ids 0..n-1, and the counter is set to n. |
| `Session.RestoreThenConnect` | server/src/session.rs:574-614 | After a restore at startup, the next connection's id is n and does not collide with any restored id. |
| `Dispatch.DispatchedExactly` | server/src/queue.rs:48-60 | The translator sees exactly the received requests whose session exists and is valid, and nothing else. |
| `Dispatch.DispatchedSnoc` | server/src/queue.rs:44-60 | Receiving one more request extends the dispatched list by that request exactly when its session exists and is valid. |
| `Dispatch.Drain` | server/src/queue.rs:44-61 | The receive loop consumes a prefix of the FIFO in order. The translator is called on exactly the dispatchable requests of that prefix. The loop stops only when the channel is empty, or right after the translator fails on the last request consumed. |
| `Dispatch.Subscribe` | server/src/queue.rs:43-64 | With no receiver it returns Ok and consumes nothing. Otherwise it consumes a prefix of the FIFO in order, and re-enqueues nothing. The translator is called on exactly the dispatchable requests of that prefix. A translator error stops the loop right after the failing request, which is the last one consumed. That is the only way to stop with requests left. On an empty channel it fails if the senders are gone and blocks otherwise. It never reports a send error. |
| `Compare.Escape` | server/src/compare.rs:10-14 | The definition of `escape`: `'`, newline and `"` replaced in that order, each by itself behind a backslash. Its properties are `EscapeIsPerCharacter`, `EscapeLength`, `EscapeIdentity` and `UnescapeEscape`. |
| `Compare.Replace` | server/src/compare.rs:11-13 | A single-character `replace` whose pattern does not occur changes nothing. |
| `Compare.ReplaceAppend` | server/src/compare.rs:11-13 | A single-character `replace` distributes over concatenation. |
| `Compare.EscapeAppend` | server/src/compare.rs:10-14 | `escape(a ++ b) == escape(a) ++ escape(b)`. |
| `Compare.EscapeIsPerCharacter` | server/src/compare.rs:10-14 | The three chained replacements equal one pass that puts a backslash before each `'`, newline and `"` and keeps every other character. |
| `Compare.EscapeLength` | server/src/compare.rs:10-14 | The length of `escape(s)` is `\|s\|` plus the number of `'`, newline and `"` characters in s. |
| `Compare.EscapeIdentity` | server/src/compare.rs:10-14 | `escape` is the identity on strings without `'`, `"` and newline. |
| `Compare.UnescapeEscape` | server/src/compare.rs:10-14 | `escape` loses no information: dropping the backslash before each special character gives back the original string. |
| `Compare.Changes` | server/src/compare.rs:74-84 | There is one `Change` per diff change, in order. Its type is "equal", "delete" or "insert", naming the tag recoverably, and its content is the span unchanged. |
| `Compare.ChangesSpellBothTexts` | server/src/compare.rs:68-84 | The transcript is the diff's old side and the reference its new side. So the non-"insert" records spell the transcript and the non-"delete" records spell the reference. |
| `Metadata.FullPath` | server/src/metadata.rs:40-48 | A path starting with `/` is used unchanged. Any other path becomes `assets_dir + "/" + path`, with `assets_dir` defaulting to `../assets`. The result ends in `/` exactly when the resource path is empty or ends in `/`. |
| `Metadata.MetadataFileLocation` | server/src/metadata.rs:49 | The metadata file is always the full path followed by `/metadata.json`. For a relative path it lies under the assets directory. |
| `Metadata.Parent` | server/src/metadata.rs:31-35 | `Path::parent` exists exactly when something is left after trailing separators and `.` components are dropped. Apart from the root, a parent is a proper prefix of the path. It never ends in a separator or a `.` component. |
| `Metadata.ParentOfChild` | server/src/metadata.rs:31-35 | The parent of `dir/name`, for one component `name` other than `.`, is `dir` without its trailing separators and `.` components, or `/` when nothing is left. |
| `Metadata.ParentOfMetadataPath` | server/src/metadata.rs:31-35 | The parent directory of a metadata path always exists. It is the full path without trailing separators and `.` components, or `/`. |
| `Metadata.FromFilename` | server/src/metadata.rs:26-37 | A load error is passed on. Otherwise the record's `enclosing_directory` is the file's parent directory. |
| `Metadata.FromResourcePath` | server/src/metadata.rs:39-54 | A load error is passed on. Otherwise the record's `enclosing_directory` is the full path. |
| `Metadata.EnclosingDirectoryAgrees` | server/src/metadata.rs:31-52 | Overwriting `enclosing_directory` changes a loaded record exactly when the full path ends in a separator or a `.` component and is not `/`. In every other case the metadata file's parent already is the full path. |
| `Metadata.DotResourcePathIsOverwritten` | server/src/metadata.rs:31-52 | Take the resource path `.` and a non-empty assets directory that does not end in a separator or `.` component; the default `../assets` is one. The parent of the metadata file is then the assets directory, and the overwrite replaces it with the assets directory followed by `/.`. |

## Left out

- The websocket and HTTP transport are not modelled. This covers `user_connected`'s receive loop, its 15-second timeout and its stop test, `send_uuid`, and the routes of `server/src/api.rs`. Only the id allocation and session registration of `user_connected` are modelled.
- The flush task spawned by `user_connected` (server/src/session.rs:386-417) is not modelled. It runs when its loop over `transcript_receive_rx` ends. That happens once every sender of the session is dropped: by `finalize_session`, by the unused-session branch of `mark_session_for_closure`, or by a failed enqueue in `user_message`. It also happens after a websocket send error. The task then enqueues one more request, numbered `sequence_number`, with the remaining buffer, and increments `sequence_number`. So in the server the job count of a finalized session ends at its last sequence + 2. `Session.StatusAcrossLifecycle` and `Session.FinalizedIsAbsorbing` speak of the closures alone.
- Locks, runtimes and threads are not modelled, and each registry operation is atomic. Races between a snapshot and a later `mutate_session` are out of scope. So is `expire_sessions` waiting for the write lock while it holds the read guard; the model states the intended filter.
- File I/O is not modelled: `persist_session_data`, `record_transcript`, `write_metadata`, directory scanning and JSON parsing. The outcomes of persisting, scanning and parsing enter as parameters. The outcomes of `record_transcript` and `write_metadata` do not enter the model. The recording and transcript file fields of a session are not modelled.
- `Session.Registry.ProcessTranscription`: the model assumes that `record_transcript` and `write_metadata` succeed when a session is finalized. In the server a failed write panics in `finalize_session`, before the session is finalized.
- The translation store lives in `translate.rs`, which is not part of this model. It is reduced to the count it reports. `transcript` and `get_translation_count` have no model, and the count is taken to be always readable.
- The silence detector `find_silence` and the float value of a sample are not modelled; the pivot is an input.
- The word-diff algorithm is a library and is not modelled. Its output is an input list, and its contract is the requirement of `ChangesSpellBothTexts`. The rest of `changes` and `compare` is not modelled: fetching the reference translation, the uuid lookup with `expect`, and template rendering.
- Integer widths are not modelled: `usize` and `u32` are unbounded, so `fetch_add` wrap-around is not modelled.
- Panics are preconditions. One is the `unwrap` on a missing session in `process_transcription` and `mark_session_for_closure`. The other is `num_segments - 1` at 0, which is reached only when the store accepted the response and the session has a last sequence.
- `get_queue` hands out clones that share one channel. The model has one `TranslationQueue` object.
- `mutate_session_sync` is `MutateSession` run from synchronous code, and is not modelled separately.
- `Session.Registry.ProcessTranscription`: sending the response on the session's websocket sender is not modelled, because it is I/O whose failure is only logged.
- `Dispatch.Subscribe`: the translator's own effects are not modelled. The registry is read but not changed while the queue drains. A `recv` on an empty channel with live senders blocks forever; the model stops there and reports `Waiting`.
- `Metadata.FromFilename`: the parent directory follows `Path::parent` for `/`-separated paths. Trailing separators and `.` components are dropped as `Path` drops them. Platform prefixes are not modelled.
- `Session.Registry.RestoreSessions`: the table invariant is re-established only when the table held no id at or above n beforehand. The server calls it at startup, on an empty table.
