# wrapper-on-paas: a verified model

A Rust supervisor serves HTTP and TCP clients from one C++ worker process, which
it talks to over a pair of pipes. The worker logs in to an Apple account, derives
key contexts and decrypts samples on a thread pool. This project models that path
and proves properties of it over every input, every interleaving and every run.

The central claim is `EndToEnd.BatchesComeBackRight`: whatever threads queue, time
out or die, and whichever processes are killed at whatever byte, a batch that comes
back is the sample operation applied to the caller's own samples, in order. It is
put together from the parts below, each with its own main results:

- the supervisor's pipes are at rest whenever nobody holds the worker, so its
  mismatch check is never what saves it (`SupervisorLaws`);
- the formats written independently in two languages are one format, up to caps
  that are stated exactly (`BatchAgreement`);
- every call comes to a result, and for every batch that can be decrypted there is a
  run that decrypts it (`SupervisorProgress`, `EndToEndRuns`);
- the pool returns only with its work done, does return, and the outcome does not
  depend on the schedule (`DecryptPool`, `PoolReturns`, `BatchRun`);
- the cache is a window of the last 128 insertions and serves a track only its own
  contexts, for exactly the ids `Engine.CoherentExactly` names (`KdCacheLaws`, `Engine`).

`dafny verify dfyconfig.toml` checks everything.

## How it is modelled

- Bytes, Unicode, Layout, BatchCodec, BatchParsers, BatchAgreement: the decrypt batch formats: encoders, the UTF-8 check, the four parsers and three builders loop by loop, and what the independent implementations owe each other.
- Frames, FrameIo, WorkerLoop: frames over pipes that move bytes as they like, and the worker's request loop.
- Supervisor, SupervisorLocks, SupervisorPlaces, SupervisorPipes, SupervisorCalls, SupervisorLaws: the supervisor as a transition system over threads, the slot lock and the processes, its invariants, and what holds in every reachable state.
- SupervisorLimit, SupervisorProgress, SupervisorServes: when the admission limit is kept, that every call comes to a result, and the runs in which calls are answered and workers started and replaced.
- SupervisorStreams: that a process of the transition system and the worker loop are one: the same frames taken, the same bytes put out.
- Exchange: one request under the lock, as the code that writes and reads.
- Session: the TCP decrypt session.
- Wire: every format byte by byte.
- Sums, DecryptPool, PoolReturns, Stripes, BatchRun: the thread pool, the strided batch, and the two interleaved.
- KdCache, KdCacheLaws, Engine: the cache of key contexts, its laws, and runs of `decrypt_samples`.
- Login: the login state machine.
- JsonScan: the first-JSON-object scanner and response normalisation.
- Base64: the base64 accumulators.
- EndToEnd, EndToEndRuns: a decrypt request from a supervisor thread to the sample operation and back, runs in which it does come back, and the TCP client beyond it.

Code that runs on one thread keeps its form: the parsers, builders, readers,
writers, scanners, accumulators, the cache, the account's and the pool's mutex-held
regions and the session are methods with the source's loops and branches, proved
against specification functions. Code whose point is concurrency (the supervisor's
threads, the pool's waits and notifications, the login flows) is a transition
system over values, in which a step is what no other thread can see the middle of;
where such a step is a mutex-held region with fields of its own, the class method
with its body is proved equal to the function the transition system uses.

What the program cannot see is left open. A pipe moves any number of bytes at a
call, asks to be called again, or fails for good, as a script decides; a deadline is
a failure at any moment. A process can die at any moment. A worker thread or a
waiting caller can wake for no reason. The native sample operation is an unknown
function from bytes to a status and bytes, key derivation an unknown partial
function, and what the environment says (runtime up, signed in, chain loaded) is a
parameter of each call. Error returns are values of `Option` or of a result datatype.

Where the code and its documentation disagree the model follows the code:

- the comment over `spawn_ready` and the test at src/rust/worker.rs:989-1016 expect
  several startup attempts; the code exits on the first failed probe
  (src/rust/worker.rs:363-388), and so does the model;
- logging out is meant to end a login, but a worker or restore still on its way can
  undo it: `Login.LogoutIsFinalIff` says exactly when;
- the base64url decoder lists `=` among the characters it skips, but its table gives
  it the value zero: `Base64.PaddingAddsZeros` says what comes out;
- the admission limit is meant to bound the queue; `SupervisorLimit.LimitExactly` says
  for which limits and how many threads it does;
- the prefetch context is meant to be stored once and pinned; no path of
  `decrypt_samples` stores it (`Engine.NothingPinned`);
- the cache key is meant to be unique per track: `KdCacheLaws.KeyUnambiguous` says
  for which ids it is, `Engine.CoherentExactly` for which ids it matters;
- a 2FA prompt is meant to wait for a code, but the flag of the first code stays up:
  `Login.FirstPromptIsFresh` says which prompts get a code of their own.

## Model

| member | source | states |
|---|---|---|
| EndToEnd.BatchesComeBackRight | src/rust/worker.rs:172-287 | In every run of any number of threads, whatever times out or dies, a batch that `decrypt_batch` hands back is one plaintext per submitted sample, in order, of equal length, each the sample operation on that very sample under the one context its process had for the track at that point |
| EndToEnd.ContextIsTheTracks | src/daemon/apple/decrypt.cpp:190-252 | Unless that process was asked for another track whose request can leave a context under the same key, that context was derived for this very track by that process, by this request or by an earlier one that found none cached, with no failure of the track since |
| EndToEnd.HandleDecryptBatch | src/daemon/ipc.cpp:491-535 | The handler, over the real parser, cache, pool schedule and builder, answers as the specification function does and leaves the cache it says, for every schedule of the pool |
| EndToEnd.HandlerAnswers | src/daemon/ipc.cpp:491-535 | A batch gets its plaintexts exactly when the caller is let in and the batch can be served, otherwise the error; a payload that is no batch, or a caller not let in, gets the error and leaves the cache as it was |
| EndToEnd.ReplyMeans | src/rust/worker.rs:178-187 | A reply flagged as a batch can only come from a request that was parsed back to the very batch sent and served in full |
| EndToEnd.CacheFollows | src/daemon/ipc.cpp:491-535 | The cache of a process is the handler's, frame after frame, whatever other requests lie between |
| EndToEnd.RepliesFit | src/daemon/ipc.cpp:477-489 | No batch answer outgrows the 32-bit length field, whatever the request, so the peer the supervisor relies on exists |
| EndToEnd.BatchOf | src/rust/worker.rs:180-183 | The flag test and the samples parser together return samples exactly for the frames that are batch answers, and the ones encoded in them |
| EndToEndRuns.BatchComesBack | src/rust/worker.rs:172-192 | Batches do come back: from every state in which a thread may call, whatever went before, a batch that the worker in the slot (or, if that is dead or there is none, a new one) can serve is decrypted in some run, and `decrypt_batch` returns its plaintexts |
| EndToEndRuns.ClientGetsPlaintexts | src/rust/main.rs:445-503 | From a TCP client's frame to the answer: one that is not an error carries, under the client's id, one plaintext per sample of that frame's batch, in order and of equal length, each the sample operation on it |
| SupervisorLaws.PipesAtRest | src/rust/worker.rs:229-287 | In every reachable state where nobody holds the slot, its process has no unanswered request and no byte half written or unread in either pipe |
| SupervisorLaws.NeverMismatched | src/rust/worker.rs:278-282 | The mismatched-response branch is unreachable, for calls and for the probe: a frame read in full is always the answer to the reader's own request |
| SupervisorLaws.AtMostOnce | src/rust/worker.rs:194-287 | Over any run a call's frame is on one process at most and at one place, even after the 32-bit id has wrapped around and although probes reuse id 0 |
| SupervisorLaws.AnswersAreOwn | src/rust/worker.rs:194-287 | A call's answer, for every opcode, is a response under that call's id and opcode with the body of what one process's handler replied, flagged exactly if that is binary, to a frame with exactly that call's id, opcode and payload, from the frames the process had taken up to then |
| SupervisorLaws.AnswersAreDistinct | src/rust/worker.rs:194-287 | Two different calls never share the place their frame went to |
| SupervisorLaws.OnePlaceEach | src/rust/worker.rs:363-388 | Every process ever started is at any time in exactly one of: under a probe, in the slot, taken out for replacement, handed to cleanup (once), seen to have exited |
| SupervisorLaws.WaitingIsExact | src/rust/worker.rs:448-451 | The waiting count equals the number of live wait trackers and never wraps below zero |
| SupervisorLaws.RecordedHoldsLock | src/rust/worker.rs:453-462 | A recorded current request is that of the thread holding the slot, with its id and opcode |
| SupervisorLimit.LimitExactly | src/rust/worker.rs:201-208 | For every limit and every number n of threads below 2^32: the waiting count stays within the limit in every run if and only if the limit is zero or n is at most the limit, because the check comes before the count |
| SupervisorLimit.LimitHolds | src/rust/worker.rs:201-208 | With more threads it stays within it in every run in which no two calls are between check and count at once |
| SupervisorProgress.CallCanGoOn | src/rust/worker.rs:194-287 | In every reachable state a call under way can take a step of its own, whatever processes and other threads do |
| SupervisorProgress.OwnStepsEnd | src/rust/worker.rs:194-287 | Every such step brings it nearer its end, by stage, part of the exchange and bytes left |
| SupervisorProgress.CallComesBack | src/rust/worker.rs:194-287 | So from any reachable state its own thread alone brings a call to a result, or ends the supervisor |
| SupervisorServes.CallIsServed | src/rust/worker.rs:229-287 | From every state of the supervisor, with any worker in the slot or none, dead or alive: a call that holds the slot is answered in some run with what its handler makes of the request, by the worker in the slot if that lives, otherwise by a new one that was started and probed, the dead one being reaped |
| SupervisorServes.CallAnswered | src/rust/worker.rs:194-287 | From every state in which a thread is idle, the slot free and the queue not full, for every opcode but a shutdown and every payload within the cap, some run takes the thread through a call of its own that is so answered, and leaves the thread idle and the slot free again |
| SupervisorServes.NeverToTheDead | src/rust/worker.rs:235-240 | A call begins to write only to a worker that it has just seen alive, or that it has just probed because the other was dead |
| SupervisorServes.PollsTheDead | src/rust/worker.rs:235-237 | No step leaves the poll for an exchange with a process that is dead then; if the one in the slot is, the exchange is with a new one |
| SupervisorServes.OnlyMatching | src/rust/worker.rs:278-282 | Whatever a process puts out, a call is only ever told of a response under its own id and opcode |
| SupervisorServes.FailureCosts | src/rust/worker.rs:248-277 | A failure before the first byte costs the call alone; in an exchange it costs the process too, which is handed to cleanup, and in a probe the supervisor |
| SupervisorServes.StartFills | src/rust/worker.rs:111-124 | Starting ahead of requests leaves the slot with a worker that lives: the one there, or a new one that was probed, a dead one being reaped |
| SupervisorServes.RestartReplaces | src/rust/worker.rs:423-446 | A restart hands the worker it finds to cleanup, once, and leaves a new one, probed, in the slot |
| SupervisorServes.Starts | src/rust/worker.rs:111-124 | From every state with a thread idle and the slot free, a whole `ensure_started` in some run leaves a worker that lives in the slot and no call touched |
| SupervisorServes.Restarts | src/rust/worker.rs:423-446 | From every such state a whole `restart_after_delay` in some run replaces the worker it finds |
| SupervisorServes.AnythingCanHappen | src/rust/worker.rs:754-778 | The model takes nothing for granted: a process can die at any moment, bytes move in any portions there is room for, and a thread can give up wherever it waits or exchanges |
| SupervisorServes.ReadsWhole | src/rust/worker.rs:262-277 | From the last byte of a request, process and reader come to the whole answer |
| SupervisorLaws.IdsRepeatRarely | src/rust/worker.rs:194-195 | Calls are numbered by a wrapping 32-bit counter: two share an id if and only if a multiple of 2^32 calls lies between them |
| SupervisorLaws.StepInv | src/rust/worker.rs:194-287 | Every step of every thread and process keeps the whole invariant |
| SupervisorLaws.RunInv | src/rust/worker.rs:194-287 | So does every run |
| SupervisorPipes.PipedKept | src/rust/worker.rs:242-287 | Every step keeps: each process has taken whole requests in order, and each exchange has its bytes exactly split between reader, pipe and process |
| SupervisorPipes.AnswerAccepted | src/rust/worker.rs:262-282 | A reader that has all it asked for holds exactly the answer to its request and left nothing behind, so the check accepts it |
| SupervisorPipes.DispatchTakes | src/daemon/ipc.cpp:572-587 | A process with a whole request in its input takes exactly that request and owes exactly its answer |
| SupervisorPipes.FrontOfPrefix | src/daemon/ipc.cpp:129-147 | A cut-off request is never taken for a whole frame |
| SupervisorPipes.WantOfPrefix | src/rust/worker.rs:701-729 | The two-stage read is over exactly when the whole frame is in, and decodes to it |
| SupervisorCalls.AttributedKept | src/rust/worker.rs:194-287 | Every step keeps the two-way link between calls and the places their frames went |
| SupervisorPlaces.PlacedKept | src/rust/worker.rs:423-487 | Every step keeps each process in exactly one place |
| SupervisorLocks.LockingKept | src/rust/worker.rs:643-665 | Every step keeps exactly the thread under the lock as its holder, and what it may count on about the slot |
| SupervisorLocks.OwnedKept | src/rust/worker.rs:453-462 | Every step keeps each thread's call its own, and the record that of the lock's holder |
| SupervisorLocks.CountedKept | src/rust/worker.rs:532-546 | Every step keeps the count equal to the threads in the queue, modulo its 32 bits |
| SupervisorStreams.PutAnswers | src/daemon/ipc.cpp:567-588 | Over any run of the supervisor, what was written to a process is the frames it took, in order, and what waits; what it put out begins the answers to them, the rest being what it still owes |
| SupervisorStreams.ProcessIsTheLoop | src/daemon/ipc.cpp:567-588 | The worker loop, run on what a process of a run was fed, takes the frames that process took and puts out the bytes it put out, as far as either got |
| SupervisorStreams.RunBeside | src/daemon/ipc.cpp:567-588 | The loop itself, run beside the supervisor on those bytes over pipes of any schedule, does so |
| Exchange.Slot.Request | src/rust/worker.rs:242-287 | From the first byte written, either both pipes advance by exactly one request and one matching answer and the process stays, or the process is given up for cleanup; given moving pipes and a matching answer, the former |
| Exchange.Slot.Abandon | src/rust/worker.rs:477-487 | The slot is emptied and its process, if any, handed over once |
| WorkerLoop.RunIpcWorker | src/daemon/ipc.cpp:567-588 | What the loop put out is the answers to the frames it took, in order, the last possibly cut; it ends only on a shutdown, when no whole frame can be had, or when its output stops moving |
| WorkerLoop.ServeAll | src/daemon/ipc.cpp:567-588 | Run on any list of frames within the cap, over pipes that keep moving in any portions, the loop serves exactly that list and puts out exactly the answers to it |
| WorkerLoop.OneAnswerEach | src/daemon/ipc.cpp:228-266 | Exactly one response to each request, in order, under its id and opcode, with the body of what the handler replied to the frames up to that request, flagged exactly if that is binary |
| WorkerLoop.StreamDelivered | src/daemon/ipc.cpp:83-161 | Any list of frames within the cap is delivered whole, whatever the schedule of short reads, interrupts and would-blocks |
| WorkerLoop.StreamsAgree | src/rust/protocol.rs:105-133 | Two lists of frames that begin the same bytes agree as far as the shorter goes |
| Frames.HeaderFields | src/rust/protocol.rs:42-58 | Every field of a header reads back as written |
| Frames.HeaderBytes | src/rust/protocol.rs:105-133 | A good header is the header of what it decodes to |
| Frames.FramePrefixUnique | src/rust/protocol.rs:105-133 | A byte string begins with at most one frame |
| Frames.EncodeAllAppend | src/rust/protocol.rs:42-58 | The encoding of two lists of frames is the two encodings, one after the other |
| FrameIo.Source.ReadFull | src/rust/worker.rs:754-778 | Under any schedule the buffer is the next bytes of the stream; short only at its end or when the pipe stops moving |
| FrameIo.Source.ReadFrame | src/rust/worker.rs:701-729 | A frame is returned only with exactly its bytes consumed, and refused only when no whole frame within the cap can be had |
| FrameIo.Sink.WriteFull | src/rust/worker.rs:731-752 | What went out is a prefix, the whole exactly on success, and success is denied only when the pipe stops moving |
| FrameIo.Sink.WriteFrameOnce | src/rust/worker.rs:677-699 | The Rust writer emits the frame's encoding, or a prefix of it, or nothing when the payload does not fit the field |
| FrameIo.Sink.WriteFrameTwice | src/daemon/ipc.cpp:149-161 | The C++ writer, header then payload, emits the same bytes |
| FrameIo.FrameFromParts | src/daemon/ipc.cpp:129-147 | A good header and as many bytes as it announces are the encoding of the frame they decode to |
| Session.HandleDecryptClient | src/rust/main.rs:445-503 | What a TCP session wrote is the answers to the frames it read, in order, the last possibly cut; it goes on past decrypted batches only, and ends only on a close, on a frame it answers with an error, when no whole frame can be had, or when its output stops moving |
| Session.AnsweredInOrder | src/rust/main.rs:445-503 | One answer to every frame but a close, in order, under the client's id: the plaintexts if and only if the batch was decrypted |
| Session.NextAnswer | src/rust/main.rs:445-503 | A frame that holds a batch is answered with the plaintexts the service makes of that batch after the ones before it, or with an error; any other frame but a close with an error; a close with nothing |
| Session.ReadClientFrame | src/rust/protocol.rs:60-87 | A client frame is returned only with exactly its bytes consumed, and refused only when no whole frame can be had |
| Session.WriteClientFrame | src/rust/protocol.rs:89-103 | A client frame goes out whole exactly on success, otherwise a prefix of it, and only because the pipe stopped moving or the payload does not fit the field |
| Session.ClientHeadFields | src/rust/protocol.rs:89-103 | Every field of a client header reads back as written |
| BatchParsers.ParseDecryptPayload | src/daemon/ipc.cpp:435-475 | The worker's parser accepts exactly the encodings of batches within its caps, and returns the batch encoded |
| BatchParsers.ParseTcpBatch | src/rust/main.rs:516-590 | The same for the TCP parser and its caps, UTF-8 included |
| BatchParsers.ParseHttpBatch | src/rust/protocol.rs:245-318 | The same for the HTTP parser and its 32-bit id lengths |
| BatchParsers.ParseSamples | src/rust/protocol.rs:183-231 | The answer parser accepts exactly the encodings of sample lists, empty ones included |
| BatchParsers.BuildBatch | src/rust/protocol.rs:135-181 | The builder yields the encoding exactly for batches that fit its fields and hold no empty sample |
| BatchParsers.BuildDecryptResponse | src/daemon/ipc.cpp:477-489 | The worker's builder yields the encoding of its samples |
| BatchParsers.BuildSamples | src/rust/main.rs:592-624 | The client-side builder yields the encoding exactly for sample lists that fit its fields |
| BatchParsers.ReadCappedTable | src/daemon/ipc.cpp:450-459 | The worker's table loop succeeds exactly when no length is zero and the total is at most 256 MiB |
| BatchParsers.CutSamples | src/rust/main.rs:568-588 | The samples cut out fill the rest of the input exactly, or the parse fails |
| BatchAgreement.EncodeBatchInjective | src/rust/protocol.rs:135-181 | A payload is the encoding of one batch only |
| BatchAgreement.EncodeHttpInjective | src/rust/protocol.rs:245-318 | So it is with HTTP bodies |
| BatchAgreement.EncodeSamplesInjective | src/rust/protocol.rs:183-231 | An answer is the encoding of one sample list only |
| BatchAgreement.SendToWorker | src/daemon/ipc.cpp:435-475 | Builder and worker parser back to back are the identity, and fail exactly on empty ids, fields that do not fit and batches over 256 MiB |
| BatchAgreement.RelayTcpBatch | src/rust/main.rs:516-590 | Parsing a TCP batch and rebuilding it for the worker is the identity on bytes; the worker turns it down exactly when it is over 256 MiB |
| BatchAgreement.RelayHttpBatch | src/rust/protocol.rs:245-318 | The same for HTTP, whose ids may also be too long for the worker's format |
| BatchAgreement.ParseTwice | src/rust/main.rs:516-590 | The two parsers of one format agree on every byte string, and their acceptance differs by the stated caps and UTF-8 alone |
| BatchAgreement.ReadsTextBatch | src/rust/main.rs:558-563 | Every batch with text ids that fit and samples within the cap is read back from the TCP and from the HTTP port |
| BatchAgreement.ReadsAsciiBatch | src/rust/main.rs:558-563 | In particular with ASCII ids, such as track numbers |
| Unicode.Utf8Exactly | src/rust/main.rs:558-563 | The check on ids passes exactly the concatenated encodings of Unicode scalar values, as section 3 of RFC 3629 encodes them |
| Wire.FrameOnTheWire | src/rust/protocol.rs:42-58 | Every byte of a frame of the pipe, as numbers at fixed places |
| Wire.ProbeOnTheWire | src/rust/worker.rs:401-421 | The twenty bytes of the readiness probe |
| Wire.ClientFrameOnTheWire | src/rust/protocol.rs:89-103 | Every byte of a frame of the TCP port |
| Wire.BatchOnTheWire | src/rust/protocol.rs:135-181 | Every byte of a batch: head, one length per sample, ids, samples, one after the other to the end |
| Wire.HttpBatchOnTheWire | src/rust/protocol.rs:245-318 | Every byte of an HTTP batch |
| Wire.SamplesOnTheWire | src/rust/protocol.rs:183-231 | Every byte of an answer |
| BatchAgreement.AnswerToSupervisor | src/daemon/ipc.cpp:477-489 | The worker's builder and the supervisor's parser back to back are the identity |
| BatchAgreement.AnswerNoLonger | src/daemon/ipc.cpp:477-489 | A length-preserving answer is no longer than its request |
| Layout.PayloadShape | src/rust/protocol.rs:135-181 | Head, table, ids and samples of a payload stand where the lengths say and tile it exactly |
| Layout.PayloadFromFields | src/rust/protocol.rs:183-231 | Fields that tile a byte string make it the payload of what they hold |
| Layout.FlattenInjective | src/rust/protocol.rs:183-231 | Samples of known lengths are determined by their concatenation |
| DecryptPool.DecryptThreadPool.Enqueue | src/daemon/apple/decrypt.cpp:83-86 | All tasks join the queue in order |
| DecryptPool.DecryptThreadPool.TryClaim | src/daemon/apple/decrypt.cpp:68-73 | The oldest task is claimed and counted, if there is one |
| DecryptPool.DecryptThreadPool.Release | src/daemon/apple/decrypt.cpp:75-78 | The count goes down by one |
| DecryptPool.DecryptThreadPool.TestDone | src/daemon/apple/decrypt.cpp:88-89 | The wait ends exactly when nothing is queued or claimed |
| DecryptPool.StepConserved | src/daemon/apple/decrypt.cpp:62-90 | Queued, running and finished tasks partition the submitted ones, and `active` counts the claimed ones, after every step |
| DecryptPool.StepNoLostWakeUp | src/daemon/apple/decrypt.cpp:62-90 | After every step, a blocked waiter whose condition holds has a notification on its way |
| DecryptPool.StepSafeReturn | src/daemon/apple/decrypt.cpp:82-90 | After every step, a caller that has returned did so with all its tasks finished |
| DecryptPool.RunAllIsSafe | src/daemon/apple/decrypt.cpp:82-90 | `run_all` returns only when all its tasks have finished, in every run with any number of workers and callers |
| PoolReturns.OrdinaryStepsEnd | src/daemon/apple/decrypt.cpp:62-90 | Without new batches and spurious wake-ups the pool's steps come to an end |
| PoolReturns.NeverStuck | src/daemon/apple/decrypt.cpp:62-90 | As long as a caller has not returned, some step can be taken |
| PoolReturns.RunAllReturns | src/daemon/apple/decrypt.cpp:82-90 | `run_all` returns: short of new batches and spurious wake-ups no run is longer than the weight of its start, and one that cannot go on has every caller returned with its own tasks |
| Stripes.StepKeepsOthers | src/daemon/apple/decrypt.cpp:272-295 | The strides partition the indices: a step of one task touches no sample of another |
| Stripes.StepInv | src/daemon/apple/decrypt.cpp:272-295 | Every step of every task keeps all it has passed processed |
| Stripes.ScheduleIndependent | src/daemon/apple/decrypt.cpp:259-303 | For every interleaving with early break, the batch is ok exactly when every sample is non-empty and well decrypted, and then it is the sequential map; the recorded error is of a bad sample |
| Stripes.StepUses | src/daemon/apple/decrypt.cpp:272-295 | Every task runs out of steps |
| BatchRun.BatchOutcome | src/daemon/apple/decrypt.cpp:259-303 | The same on the pool itself, every step of pool, tasks and other callers interleaved, up to the return of the caller |
| BatchRun.ErrorStays | src/daemon/apple/decrypt.cpp:278-294 | Over any run the error recorded first is the one reported, whatever happens after it |
| BatchRun.OrdinaryStepsEnd | src/daemon/apple/decrypt.cpp:259-303 | Pool and tasks together come to an end |
| BatchRun.NeverStuck | src/daemon/apple/decrypt.cpp:259-303 | Until the caller is back, pool or tasks can move |
| BatchRun.BatchReturns | src/daemon/apple/decrypt.cpp:259-303 | From any state of pool and batch such steps lead to the return of the caller, with its own tasks |
| BatchRun.BatchCompletes | src/daemon/apple/decrypt.cpp:259-303 | A caller with nothing under way can have any batch run to its end, whatever else the pool is doing |
| KdCache.Cache.Lookup | src/daemon/apple/decrypt.cpp:128-133 | The map answers as the window of recent insertions and the pinned entries do |
| KdCache.Cache.Insert | src/daemon/apple/decrypt.cpp:135-150 | A known key gets its value in place; a fresh one is pinned or joins the last 128; deque and map stay in step |
| KdCache.Cache.Remove | src/daemon/apple/decrypt.cpp:152-160 | The entry goes from map and deque alike |
| KdCacheLaws.KeyInjective | src/daemon/apple/decrypt.cpp:119-126 | Newline-free ids have distinct keys |
| KdCacheLaws.KeyUnambiguous | src/daemon/apple/decrypt.cpp:119-126 | A key names a single pair exactly when neither part holds a newline |
| KdCacheLaws.LookupsAgree | src/daemon/apple/decrypt.cpp:119-160 | Over any run on newline-free ids the cache keyed by strings answers as one keyed by pairs |
| KdCacheLaws.Retained | src/daemon/apple/decrypt.cpp:135-150 | An entry survives, with its value, any run on other keys with few enough stores |
| KdCacheLaws.StoredIsFound | src/daemon/apple/decrypt.cpp:135-150 | What was stored is found under its key, known before or not, pinned or not |
| KdCacheLaws.ErasedIsGone | src/daemon/apple/decrypt.cpp:152-160 | What was erased is gone |
| KdCacheLaws.PinnedStays | src/daemon/apple/decrypt.cpp:135-150 | A pinned entry stays, with its value, through any run on other keys |
| KdCacheLaws.WindowSlides | src/daemon/apple/decrypt.cpp:135-150 | Fresh stores slide the window of the last 128 and do nothing else |
| KdCacheLaws.EvictedExactly | src/daemon/apple/decrypt.cpp:135-150 | Eviction is exact: after n fresh stores an entry with y younger ones is there if and only if y + n < 128 |
| Engine.DecryptSamples | src/daemon/apple/decrypt.cpp:164-320 | The call returns every sample's plaintext or fails, as the specification says for the cache it finds, and leaves the cache it says |
| Engine.DecryptOnce | src/daemon/apple/decrypt.cpp:190-303 | Lookup, derivation, store and pooled decryption, for every schedule of the pool |
| Engine.ServedExactly | src/daemon/apple/decrypt.cpp:164-303 | A request is served exactly when the stack is loaded and ready, ids and samples are there, a context is cached or can be derived for a track other than the prefetch one, and every sample is non-empty and decrypts; then it gets each sample's plaintext under that context, in order |
| Engine.NotLetIn | src/daemon/apple/decrypt.cpp:164-188 | A request with the stack not loaded or not ready, an id missing or no samples fails and leaves the cache as it was |
| Engine.SchedulesExist | src/daemon/apple/decrypt.cpp:259-303 | From any pool state with such a caller there are complete schedules for every batch under every context, so `decrypt_samples` can be called |
| Engine.NothingPinned | src/daemon/apple/decrypt.cpp:200-204 | Over any run nothing is ever pinned, so the whole map stays within 128 entries |
| Engine.FailureForgets | src/daemon/apple/decrypt.cpp:306-319 | A batch that fails past the guards leaves no context for its track |
| Engine.Coherent | src/daemon/apple/decrypt.cpp:190-252 | Over any run in which no other track can leave a context under its key, a cached context was derived by a request for that very track that found none cached, after the track's latest failure |
| Engine.PlainAlone | src/daemon/apple/decrypt.cpp:119-126 | A run on newline-free ids is such a run for every track |
| Engine.CoherentExactly | src/daemon/apple/decrypt.cpp:119-252 | For each track: whatever runs came before, a context cached for it is its own in this sense, if and only if no newline inside its ids, taken for the one between them, leaves non-empty ids of which the first is not the prefetch id; that is, if and only if no other such track has its key |
| Engine.PrefetchNeverServed | src/daemon/apple/decrypt.cpp:200-204 | The prefetch id is not served after any run in which no track can leave a context under its key |
| Engine.PrefetchServedExactly | src/daemon/apple/decrypt.cpp:200-204 | For each key uri the prefetch id is never served, whatever runs came before, if and only if no other such track has its key |
| Engine.SharedKeyServesWrongTrack | src/daemon/apple/decrypt.cpp:119-126 | Two tracks that share a key share a context, which needs a newline in an id |
| Login.Account.Start | src/daemon/apple/auth.cpp:61-93 | A login starts exactly when no flow is under way, and resets every field |
| Login.Account.SubmitCode | src/daemon/apple/auth.cpp:95-106 | A code is taken exactly while one is awaited |
| Login.Account.BeginRestore | src/daemon/apple/auth.cpp:132-152 | A restore begins exactly when logged out, and keeps the id |
| Login.Account.FailRestore | src/daemon/apple/auth.cpp:157-178 | A restore that fails leaves the account logged out and changes nothing else |
| Login.Account.SignalLogout | src/daemon/apple/auth.cpp:203-208 | The first half of a logout only signals |
| Login.Account.ClearLogout | src/daemon/apple/auth.cpp:212-223 | The second half resets every field |
| Login.Account.Credentials | src/daemon/apple/auth.cpp:263-267 | Without a code asked for, the handler yields id and password, and succeeds exactly with an id |
| Login.Account.ParkFor2fa | src/daemon/apple/auth.cpp:269-293 | Asked for a code, the handler waits exactly when neither code nor abort is there; otherwise it runs to its end without giving up the mutex, and yields password and code exactly when there is a code and no abort |
| Login.Account.ResumeFrom2fa | src/daemon/apple/auth.cpp:277-293 | The handler yields password and code exactly when a code came and no abort |
| Login.Account.Succeed | src/daemon/apple/auth.cpp:296-310 | The account is authenticated under the tokens' id with its secrets wiped |
| Login.Account.Fail | src/daemon/apple/auth.cpp:312-324 | The account has failed with the message, its secrets wiped |
| Login.Harvest | src/daemon/apple/tokens.cpp:375-395 | Tokens are had exactly when storefront, dev token, device guid and music token are all non-empty, and each is the one answered for it, the dsid empty when there is none |
| Login.AlwaysSafe | src/daemon/apple/auth.cpp:61-401 | For every interleaving, stale workers and logouts included: authenticated means tokens complete, secrets empty and the ids equal; failed means secrets empty and an error |
| Login.TokensAreLatest | src/daemon/apple/auth.cpp:296-401 | In every reachable state an authenticated account holds, field by field, what the latest login or restore that succeeded was answered |
| Login.LogsIn | src/daemon/apple/auth.cpp:61-401 | Whenever no flow is under way, a login for any id can go through a 2FA prompt with a submitted code to an account that holds the answers under that id |
| Login.Restores | src/daemon/apple/auth.cpp:108-186 | Whenever the account is logged out and no restore under way, a restore can succeed, under the configured name |
| Login.FailureTold | src/daemon/apple/auth.cpp:312-394 | A failed login says what the service said, else what was meant for the customer, else the answer's type, under the service's code; every other failure has a code from -5 to -1 and a message |
| Login.OneFlowAtATime | src/daemon/apple/auth.cpp:61-401 | The account is busy exactly while one flow is on its way, all along a run, if and only if no logout cuts into a flow; then there are never two flows, and a login that succeeds carries the id it was started for |
| Login.FlowsInStep | src/daemon/apple/auth.cpp:203-224 | The same from any state in which they are in step: the first logout that cuts in leaves the account logged out with the flow still on its way |
| Login.PromptCode | src/daemon/apple/auth.cpp:258-294 | In every interleaving an answered prompt uses a code submitted during that prompt if and only if none was there when it was asked for; one that was there is used again at once |
| Login.FirstPromptIsFresh | src/daemon/apple/auth.cpp:258-294 | As long as no logout cuts into a flow, that is so if and only if the prompt is the first of its flow to be answered: every later one gets the first one's code again, because nothing takes the code down |
| Login.LogoutIsFinalIff | src/daemon/apple/auth.cpp:203-224 | A logged-out account stays so, short of a new flow, if and only if no worker or restore is still on its way |
| Login.StaleWorkerTakesNewId | src/daemon/apple/auth.cpp:393-394 | A run in which a login cut off by a logout finishes under the id of the next login, because the id is read without the mutex |
| JsonScan.FirstJsonObject | src/daemon/apple/tokens.cpp:44-74 | The result is the shortest slice from the first brace that returns to depth zero outside strings, and empty exactly when there is none |
| JsonScan.FindsPrintedObject | src/daemon/apple/tokens.cpp:44-74 | For every object printed as RFC 8259 allows, any prefix without a brace and any suffix, the result is the object's text |
| JsonScan.ObjectIsShortest | src/daemon/apple/tokens.cpp:44-74 | A printed object is a shortest balanced slice wherever it stands |
| JsonScan.Determined | src/daemon/apple/tokens.cpp:44-74 | The result is determined by the text |
| JsonScan.Idempotent | src/daemon/apple/tokens.cpp:44-74 | Scanning a result again gives it back |
| JsonScan.Normalize | src/daemon/apple/tokens.cpp:25-42 | A byte order mark, then a guard with its line, come off |
| JsonScan.UnwrapsBody | src/daemon/apple/tokens.cpp:25-42 | A guard on its own line comes off whole, with or without the mark |
| JsonScan.SameLineGuard | src/daemon/apple/tokens.cpp:25-42 | A guard on the text's own line comes off cleanly if and only if the text is all on that line |
| JsonScan.PlainBodyStays | src/daemon/apple/tokens.cpp:25-42 | A text with neither mark nor guard in front comes out unchanged, and the mark alone comes off with nothing else lost |
| JsonScan.ExtractsObject | src/daemon/apple/tokens.cpp:76-88 | For every printed object, every text without a brace before it that has no guard in front, or ends the guard's line, with or without the mark, and whatever follows, the result is exactly the object's text |
| JsonScan.ExtractsExactly | src/daemon/apple/tokens.cpp:76-88 | And only then: the result is the object's text whatever follows if and only if the text before it has no guard or ends the guard's line |
| JsonScan.ExtractObject | src/daemon/apple/tokens.cpp:76-88 | The text handed to the JSON parser is the first object of the normalised body |
| Base64.Encode | src/daemon/apple/playback.cpp:43-63 | The accumulator computes section 4 of RFC 4648, defined on the bit string, for inputs of any length, its 32-bit wrap-around included |
| Base64.SpellOut | src/daemon/apple/playback.cpp:43-61 | The text before padding spells the six-bit groups of the input |
| Base64.EncodedText | src/daemon/apple/playback.cpp:43-63 | Four characters for every three bytes begun, padding only at the end, and a reference decoder gives the bytes back |
| Base64.ShiftIn | src/daemon/apple/playback.cpp:51-52 | An unmasked register keeps its tail however often it wraps |
| Base64.TakeOut | src/daemon/apple/tokens.cpp:149-153 | The bits above the last k are what a right shift leaves at the bottom, for negative registers too |
| Base64.Decode | src/daemon/apple/tokens.cpp:128-157 | The decoder yields the whole bytes of the characters' bits, and nothing if any other character occurs |
| Base64.UrlRoundTrip | src/daemon/apple/tokens.cpp:128-157 | It undoes unpadded base64url of byte strings of any length, with line breaks anywhere |
| Base64.LineEndsIgnored | src/daemon/apple/tokens.cpp:143-147 | An end of line makes no difference, anywhere, with or without a carriage return |
| Base64.IllegalLeavesNothing | src/daemon/apple/tokens.cpp:143-147 | Any character but letters, digits, `-`, `_`, `=` and ends of lines leaves nothing |
| Base64.PaddingAddsZeros | src/daemon/apple/tokens.cpp:132-148 | On padded text it appends one zero byte per padding character, so it is right if and only if there is no padding |
| Base64.CutStream | src/daemon/apple/playback.cpp:49-58 | Cutting a bit string gives back the numbers strung together |

## Left out

- The native ABI: src/daemon/apple/abi.hpp, loader.cpp, runtime.cpp, and the CF walker and purchase flow of playback.cpp; foreign calls are unknown functions.
- The HTTP listener, header, query and percent decoding, the API key check, environment parsing and the JSON library: I/O, or easy members.
- Wall-clock time: deadlines, timeouts and delays are failures or steps that may come at any moment, so nothing is said about how long anything takes.
- The memory model: atomics and mutexes are sequentially consistent, and each relaxed counter operation is one step.
- Mutex poisoning, stderr forwarding, log output, `last_error`, restart, timeout and startup-failure counters, which nothing else reads.
- The supervisor's and the login's threads as classes: their interleavings are a transition system on values, so aliasing is left out there; the regions and exchanges they run are methods of `Login.Account`, `Exchange.Slot`, `FrameIo.Source` and `FrameIo.Sink`.
- The recorded pid and who `recover_stuck_worker_or_exit` kills: `Kill` may strike any process at any time, which covers every choice it can make.
- When a restart is asked for: any idle thread may begin `restart_after_delay`, which covers the calls that do.
- Text of error messages: a parameter, or not told apart.
- The pool's destructor and its `stop` flag: the pool is static and is never torn down while calls run.
- A native call that throws inside a pool thread, which ends the process, and one that never returns.
- The account's `loader_` and `runtime_` pointers and the time of login; `worker_main` reads `apple_id_` as a whole string, where a read torn by a concurrent write is undefined in C++.
- `wait_for_settled_state` and the public snapshot: reads only.
- Characters of scanned text are one byte each.
- JsonScan.FirstJsonObject: `depth` is unbounded, where the source has an `int` (src/daemon/apple/tokens.cpp:47); `JsonScan.Walking` keeps it at most the length of the text, so the two can differ only on texts longer than an `int` can say.
- FrameIo.Source.ReadFrame: a length above the cap is refused without consuming the payload, as in the worker; the supervisor's reader has no cap but the field's width.
- Session.WriteClientFrame: header and payload go out in one write, where the source writes the fields one after the other; the bytes are the same, and so are the places they can be cut.
- Worker processes that do not follow src/daemon/ipc.cpp: a process is the worker loop over an unknown handler, whose replies depend on the frames it has taken and stay below the 4 GiB the length field can say (`Supervisor.Conforming`; `EndToEnd.RepliesFit` proves it of batch replies).
- EndToEnd.Decrypts: `dispatch` turns an exception thrown anywhere in a handler into a 500 answer (src/daemon/ipc.cpp:537-563), where the model answers with the plaintexts whenever the batch can be served; running out of memory is not modelled.
- SupervisorLaws.WaitingIsExact: for fewer than 2^32 threads, the width of the counter; `SupervisorLocks.CountedKept` has no such bound.
- Exchange.Slot.Request: one thread's view of an exchange; that nobody else touches the pipes meanwhile is what `SupervisorLaws` proves of the whole.
