# Stream manager bookkeeping, in Dafny

This project models the bookkeeping core of the LBRY SDK's `StreamManager`
(`lbry/stream/stream_manager.py`) and proves properties of that model. The
manager keeps:

- a registry of managed streams keyed by sd hash;
- a table of in-flight reflector uploads, also keyed by sd hash;
- the storage's claim-callback table, keyed by stream hash;
- a list of pending notification futures;
- two optional background handles (resume-saving and re-reflection);
- a `started` flag.

The model is a sequential state machine. Its collaborators appear in one of
two forms. Some are oracles passed as parameters:

- the set of verified sd blobs;
- the set of streams whose blobs are complete;
- the descriptors the blob manager can load;
- the outcome of descriptor recovery;
- the random server index.

The calls the manager makes to the blob manager, the storage and a stream's
own tasks are appended to a log of effects instead.

Files:

- `wrappers.dfy`: `Option` and `Result`.
- `hex.dfy`: `path_or_none` and the hexadecimal codec under it.
- `streams.dfy`: the values.
  - Descriptors, managed streams, stored file records, tasks and the configuration.
  - Errors and the effects log.
  - Small pure helpers: the blob list a deletion hands over, and the server choice.
- `reflection.dfy`: one cycle of `reflect_streams`, as a specification.
  - `Plan` and `Batches` give the batches a cycle awaits.
  - Lemmas: the size limit, no duplicates, eligibility and coverage.
- `startup.dfy`: the pieces of `initialize_from_database` and `recover_streams`.
  - The partition into records to recover and records to start.
  - The recovery arguments and their outcomes.
  - The start loop as a fold, `StartAll`, with its lemmas.
- `manager.dfy`: the `StreamManager` class.
  - Its fields and its invariant `Valid`.
  - One method per operation, each proved against the functions above.
- `findings.dfy`: two places where the code as written departs from its evident intent.
  - For each: the code as written, and the corrected behaviour the rest of the model uses.

Tasks are opaque ids in a task table, each with a `cancelled` and a `done`
flag. A task is in flight while it is neither done nor cancelled, and its
completion is an explicit event (`Complete`). The manager's invariant
(`Manager.StreamManager.Valid`) says:

- every registry entry is stored under its own sd hash;
- every callback is stored under the stream hash of the stream it captured;
- every registered stream has a callback;
- every upload entry names an upload task for its own sd hash;
- every upload task still in flight is the entry of its sd hash, so at most one upload per sd hash is in flight.

## Model

| member | source | states |
|---|---|---|
| Hex.Unhexlify | lbry/stream/stream_manager.py:29 | Decoding yields half as many bytes as digits; an odd-length column is rejected |
| Hex.PathOrNone | lbry/stream/stream_manager.py:26-29 | Yields nothing exactly when the column is absent or empty; an odd-length column is an error; a decoded path is non-empty and half the column's length |
| Hex.UnhexlifyHexlify | lbry/stream/stream_manager.py:29 | Decoding the hex encoding of any byte string gives those bytes back |
| Hex.PathRoundTrip | lbry/stream/stream_manager.py:26-29 | A non-empty path stored as the hex of its bytes is read back unchanged |
| Hex.NonHexRejected | lbry/stream/stream_manager.py:29 | An even-length column holding a character that is not a hex digit is rejected |
| Streams.BlobsToDelete | lbry/stream/stream_manager.py:220 | The deletion list is the sd hash, then the descriptor's blob hashes in order without the final terminator |
| Streams.ChooseServer | lbry/stream/stream_manager.py:193-194 | The choice fails exactly when no server is configured; otherwise it is one of the configured servers |
| Reflection.Present | lbry/stream/stream_manager.py:159 | Keeps exactly the candidates that are registered, each as many times as the storage listed it, and nothing else |
| Reflection.PresentConcat | lbry/stream/stream_manager.py:159 | Filtering a concatenation gives the concatenation of the filterings, so the kept candidates stay in storage order |
| Reflection.BatchLimit | lbry/stream/stream_manager.py:167 | The effective batch size is at least one and at least the configured limit, and equals the limit when that is positive |
| Reflection.Plan | lbry/stream/stream_manager.py:160-169 | With a positive limit and a batch below it, no awaited batch is empty; with a limit below one, every popped candidate awaits a batch of its own |
| Reflection.Batches | lbry/stream/stream_manager.py:155-171 | Over a whole cycle, a positive limit awaits no empty batch, and a limit below one awaits one batch per registered candidate |
| Reflection.PlanBounded | lbry/stream/stream_manager.py:160-169 | No awaited batch holds more than max(1, concurrent_reflector_uploads) uploads |
| Reflection.PlanDistinct | lbry/stream/stream_manager.py:160-169 | No sd hash occurs twice in a batch, and no batch holds a stream whose upload was in flight when the cycle started |
| Reflection.PlanEligible | lbry/stream/stream_manager.py:162-165 | Every enqueued stream is registered, has a verified sd blob and complete blobs, and is not fully reflected |
| Reflection.PlanCovers | lbry/stream/stream_manager.py:160-169 | Every candidate that meets the four conditions when the cycle starts is uploaded in some batch |
| Reflection.PlanWithin | lbry/stream/stream_manager.py:160-165 | Every enqueued sd hash is one of the candidates still to pop or already in the current batch |
| Reflection.CycleProperties | lbry/stream/stream_manager.py:155-171 | Over a whole cycle: the size limit, no duplicates within a batch, only eligible registered candidates, and every eligible registered candidate uploaded |
| Startup.Unverified | lbry/stream/stream_manager.py:118-123 | Holds exactly the records whose sd blob is not verified |
| Startup.Partition | lbry/stream/stream_manager.py:113-124 | Every record goes to the start list in storage order; the recovery list is exactly the unverified records |
| Startup.RecoveryArgs | lbry/stream/stream_manager.py:82-85 | The recovery arguments exist exactly when both stored names decode; they carry the record's sd hash and stream hash |
| Startup.RecoveryCalls | lbry/stream/stream_manager.py:80-86 | Succeeds exactly when every record's names decode, with one call per record; a failure is some record's decode error |
| Startup.Attempt | lbry/stream/stream_manager.py:76-78 | A recovery contributes an entry exactly when it produced a descriptor; the entry carries that descriptor, the sd hash and the content fee |
| Startup.Restore | lbry/stream/stream_manager.py:68-86 | Collects exactly the recoveries that produced a descriptor; empty exactly when every recovery failed |
| Startup.Restorable | lbry/stream/stream_manager.py:65-86 | The set of restored entries: exactly the successful recoveries of the records |
| Startup.Paths | lbry/stream/stream_manager.py:132-133 | Succeeds exactly when both stored paths decode |
| Startup.ResumeOf | lbry/stream/stream_manager.py:132-135 | A record yields a resume-saving entry exactly when its paths decode and it asks for one; the entry carries its sd hash and its two decoded, non-empty paths |
| Startup.Resumes | lbry/stream/stream_manager.py:131-135 | The entries of the records in record order, at most one per record |
| Startup.ResumesComplete | lbry/stream/stream_manager.py:131-135 | Every record that asks to resume has its entry in the list |
| Startup.ResumesSound | lbry/stream/stream_manager.py:131-135 | Every entry of the list is the entry of one of the records |
| Startup.Load | lbry/stream/stream_manager.py:94-110 | A stream exists exactly when the record's descriptor loads; it is keyed by the descriptor's sd hash and carries the descriptor, the decoded paths, the status and the fully-reflected flag |
| Startup.Loaded | lbry/stream/stream_manager.py:131-141 | The start loop loads a stream for a record exactly when its paths decode and its descriptor loads |
| Startup.StartGrows | lbry/stream/stream_manager.py:131-143 | Whether or not a path fails, registry and callback keys are only added, and the resume list grows by at most one entry a record |
| Startup.StartFailure | lbry/stream/stream_manager.py:131-141 | The start loop ends without error exactly when every record's paths decode |
| Startup.StartRegistry | lbry/stream/stream_manager.py:131-143 | The registry stays keyed by sd hash; its keys never exceed the old keys plus the sd hashes of the descriptors that load, and equal them when no path fails |
| Startup.StartKept | lbry/stream/stream_manager.py:131-143 | When no path fails, an entry under an sd hash that no record loads keeps its stream |
| Startup.StartEntries | lbry/stream/stream_manager.py:131-143 | When no path fails, each sd hash the records load holds the stream built from the last record that loads it |
| Startup.StartCallbacks | lbry/stream/stream_manager.py:57-59 | Loading keeps every callback under the stream hash of the stream it captured and gives every registered stream a callback |
| Startup.StartCallbackKeys | lbry/stream/stream_manager.py:57-59 | The callback keys never exceed the old keys plus the stream hashes of the descriptors that load, and equal them when no path fails |
| Startup.StartCallbackKept | lbry/stream/stream_manager.py:57-59 | When no path fails, a callback under a stream hash that no record loads keeps the stream it captured |
| Startup.StartCallbackEntries | lbry/stream/stream_manager.py:57-59 | When no path fails, the callback under each stream hash the records load captures the stream built from the last record that loads it |
| Startup.StartResume | lbry/stream/stream_manager.py:131-135 | When no path fails, the resume list is its prefix followed by the entries of the records that ask to resume, in record order, and holds no other entry |
| Startup.StartResumeOrder | lbry/stream/stream_manager.py:129-135 | When no path fails, the resume list after the loop is the one before it followed by `Resumes` of the records |
| Startup.FirstMissing | lbry/stream/stream_manager.py:148-152 | Nothing exactly when every queued file's stream is registered; otherwise an unregistered sd hash from the queue |
| Startup.Outcome | lbry/stream/stream_manager.py:131-152 | The start phase succeeds exactly when no path failed to decode and every queued file's stream is registered; otherwise it names the error |
| Manager.AtMostOneInFlight | lbry/stream/stream_manager.py:196-199 | Under the table invariant, two in-flight uploads of the same sd hash are the same task |
| Manager.StreamManager.constructor | lbry/stream/stream_manager.py:44-55 | Starts with empty collections, no handles, `started` clear, and the invariant holding |
| Manager.StreamManager.Add | lbry/stream/stream_manager.py:57-59 | Registers the stream under its sd hash, replacing any entry, and installs a callback under its stream hash |
| Manager.StreamManager.UpdateContentClaim | lbry/stream/stream_manager.py:61-63 | Inserts the captured stream if its sd hash is absent, then applies the claim to that entry; a missing claim raises after the insertion |
| Manager.StreamManager.FireClaimCallback | lbry/stream/stream_manager.py:59 | Running the callback installed for a stream hash updates the claim of the entry for the captured stream's sd hash |
| Manager.StreamManager.CancelTask | lbry/stream/stream_manager.py:187 | Cancels exactly the given task and changes no other; the invariant is kept |
| Manager.StreamManager.Target | lbry/stream/stream_manager.py:193-194 | The given server and port when both are set; otherwise one of the configured servers |
| Manager.StreamManager.ReflectStream | lbry/stream/stream_manager.py:191-203 | Without a server and port, an empty server list fails first; an sd hash with an upload returns that task and changes nothing; otherwise a fresh upload task is recorded under the sd hash; the invariant is kept |
| Manager.StreamManager.Complete | lbry/stream/stream_manager.py:199-202 | A finishing task is done; its entry is dropped only while the entry still holds it; the invariant is kept |
| Manager.StreamManager.CompleteAsWritten | lbry/stream/stream_manager.py:199-202 | A finishing upload drops the entry of its sd hash, whatever task the entry holds |
| Manager.StreamManager.Gather | lbry/stream/stream_manager.py:167 | Awaiting a batch completes each of its tasks and drops exactly their entries |
| Manager.StreamManager.Consider | lbry/stream/stream_manager.py:162-166 | An eligible stream's upload joins the batch, as in the plan; the new upload is the next task id and goes to the server `random.choice` picks from the configured list |
| Manager.StreamManager.Flush | lbry/stream/stream_manager.py:166-168 | Awaiting the batch returns the upload table to what it was when the cycle started |
| Manager.StreamManager.Pop | lbry/stream/stream_manager.py:160-168 | One pass of the loop pops the last candidate; the awaited batches followed by the rest of the plan equal the plan before the pass; the cycle state is kept |
| Manager.StreamManager.PopAll | lbry/stream/stream_manager.py:160-169 | The whole loop: the awaited batches, followed by the plan of the batch left over, are the plan of all the candidates; every awaited upload is a fresh, completed task in order, sent to the server chosen for its stream, and the ids handed out are exactly those of the batches |
| Manager.StreamManager.Run | lbry/stream/stream_manager.py:160-171 | The loop and the last await together: the awaited batches are exactly the plan of the candidates, and the cycle state holds with no batch left over |
| Manager.StreamManager.ReflectCycle | lbry/stream/stream_manager.py:155-171 | Does nothing unless reflection is enabled and servers are configured; otherwise awaits exactly the batches of the plan; for each stream of each batch it names a fresh upload task of that sd hash, completed and not cancelled, the tasks distinct and in creation order, each sent to the server chosen from the configured list for its stream; the task table gains exactly those tasks and keeps the others; the ids handed out are exactly those tasks', so `nextTask` moves past them and no further; the upload table is unchanged |
| Manager.StreamManager.Start | lbry/stream/stream_manager.py:174-176 | Sets `started` and records a fresh re-reflection task |
| Manager.StreamManager.CancelHandles | lbry/stream/stream_manager.py:179-182 | Cancels exactly the background handles that exist |
| Manager.StreamManager.PopFuture | lbry/stream/stream_manager.py:184 | Removes the last pending future and cancels it, keeping the invariant |
| Manager.StreamManager.CancelFutures | lbry/stream/stream_manager.py:183-184 | Empties the futures list and cancels exactly its futures |
| Manager.StreamManager.CancelUploads | lbry/stream/stream_manager.py:185-187 | Empties the upload table and cancels exactly the tasks it held |
| Manager.StreamManager.PopUpload | lbry/stream/stream_manager.py:186-187 | Removes one entry of the upload table and cancels the task it held |
| Manager.StreamManager.Stop | lbry/stream/stream_manager.py:178-189 | Leaves the futures list and the upload table empty and `started` clear; cancels exactly the handles, futures and uploads; no upload is in flight afterwards |
| Manager.StreamManager.DeleteStream | lbry/stream/stream_manager.py:214-222 | Cancels an in-flight upload but keeps its entry; removes the stream from the registry; then deletes exactly the sd hash and content blob hashes, without touching the database, then the stored record; callbacks untouched |
| Manager.StreamManager.CancelUpload | lbry/stream/stream_manager.py:215-216 | Cancels the stream's in-flight upload when there is one, and leaves the upload table as it is |
| Manager.StreamManager.Unregister | lbry/stream/stream_manager.py:218-219 | Removes the sd hash from the registry when present, keeping the invariant |
| Manager.StreamManager.CreateStream | lbry/stream/stream_manager.py:205-212 | Registers the created stream and installs its callback; starts an upload only when reflection is enabled and servers are configured, reusing an upload already recorded; a new upload is the one task added, under the next id, towards the chosen server, and the one entry added to the upload table; no other task or entry changes |
| Manager.StreamManager.LoadStream | lbry/stream/stream_manager.py:94-110 | Registers the stream a loadable record yields, with the record's fully-reflected flag; leaves the registry alone when the descriptor is invalid |
| Manager.StreamManager.RecoverStreams | lbry/stream/stream_manager.py:65-89 | Raises exactly when some stored name is malformed, with that record's decode error; otherwise hands the storage exactly the successful recoveries, and only when there is at least one |
| Manager.StreamManager.StartRecords | lbry/stream/stream_manager.py:131-143 | The registry, callback table, resume list and error after the start loop are exactly those of `Startup.StartAll` |
| Manager.StreamManager.RecoverUnverified | lbry/stream/stream_manager.py:116-125 | Notes the manually removed files, then recovers exactly the unverified records; raises exactly when one of their names is malformed, with that record's decode error |
| Manager.StreamManager.InitializeFromDatabase | lbry/stream/stream_manager.py:112-153 | The registry and callback table after start-up are those of the start fold, and unchanged when recovery raises; the error is the decode error of an unverified record, the start-loop decode error or the first unregistered queued file; the resume-saving task is created, under the next task id, exactly when the queue is non-empty and nothing raised, and no other task id is used |
| Manager.StreamManager.LaunchResumeSaving | lbry/stream/stream_manager.py:147-152 | Records a fresh resume-saving task over the queued files |
| Manager.StreamManager.PartialContent | lbry/stream/stream_manager.py:407-408 | The lookup succeeds exactly when the sd hash is registered, yielding the stream with that sd hash; otherwise it is an unknown-stream error |
| Findings.LoadStreamAsWritten | lbry/stream/stream_manager.py:94-110 | A call with the wrong argument count raises; no call registers a stream |
| Findings.NoStreamLoads | lbry/stream/stream_manager.py:136-141 | With the nine arguments the start loop passes, every call raises a TypeError |
| Findings.StaleCallbackAsWritten | lbry/stream/stream_manager.py:178-203 | With the callback as written, stop, reflect, a late completion and another reflect leave two in-flight uploads of one sd hash, and the upload table no longer tracks them |
| Findings.StaleCallbackCorrected | lbry/stream/stream_manager.py:178-203 | With the corrected callback, the same events keep one in-flight upload, recorded in the table, with the invariant holding |

## Left out

- Asyncio interleaving. A reflection cycle and each other operation run atomically. `asyncio.gather` completes the gathered tasks in order.
- Cancellation ends "in flight" at once. A cancelled task still completes later, and its done-callback runs then (`Complete`).
- The `while True` loop of `reflect_streams` and its 300-second sleep: the model is one cycle (`ReflectCycle`).
- `random.choice` becomes an index supplied by the caller, reduced modulo the number of servers.
- UTF-8 decoding in `path_or_none` and in the recovery arguments reads each byte as the character with the same code. This agrees with UTF-8 on ASCII. Invalid UTF-8 is not rejected.
- Collaborator internals are not modelled:
  - the blob manager, the storage, descriptor recovery;
  - stream creation, `save_file`, `upload_to_reflector`, `stop_tasks` and `set_claim`.
  - They appear only as oracles and effects. In particular, an upload never sets `fully_reflected` in the model.
- Streams are values in the registry, not shared objects. A callback holds a copy of the stream it captured, and updates through another reference to the same object are not seen.
- The start loop loads the records one after the other in storage order. Where two records share an sd hash, the later one ends up registered. In the source, the order of concurrent loads decides.
- `SourceManager` is not part of this model. Its `add` is taken to insert the stream under its sd hash, and its `start` to set `started`.
- The `delete_file` parameter of `delete_stream` is unused by the code and is left out.
- The notification futures are only ever cancelled here. Nothing in this file adds to them.
- Logging, analytics and the node check at line 145 are left out.
- The commented-out code at lines 224-405 is left out.
- Manager.StreamManager.InitializeFromDatabase: when a stored path fails to decode, the model registers the streams of the earlier records at once and none after. In the source, the load tasks already created for the earlier records run in the background after the error has propagated.

## Findings

| source | as written | input that shows it | evidently intended | confidence | as-written member | corrected member |
|---|---|---|---|---|---|---|
| lbry/stream/stream_manager.py:94-110, 136-141 | `_load_stream` declares eight parameters, but its caller passes nine, and the body reads `fully_reflected`, which it never defines | any stored file record whose two paths decode: the TypeError of line 136 propagates out of `initialize_from_database` at the first such record, so no stream is registered and the resume-saving task of line 149 is never created | `fully_reflected` is a ninth parameter that sets the stream's flag | not executed | Findings.LoadStreamAsWritten | Manager.StreamManager.LoadStream |
| lbry/stream/stream_manager.py:178-203 | the done-callback drops the entry of its sd hash whatever task the entry now holds | reflect_stream(s) starts t1; stop() cancels t1 and drops its entry; reflect_stream(s) starts t2; t1 finishes and drops t2's entry; reflect_stream(s) starts t3 while t2 is still in flight | the callback drops the entry only while it still holds the finishing task | not executed | Findings.StaleCallbackAsWritten | Manager.StreamManager.Complete |
