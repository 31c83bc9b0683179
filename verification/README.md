# Termwright clients, verified in Dafny

A model of the hard parts of the Go and Rust clients of Termwright, the semantic side channel of a terminal
application, with proofs about it.  `dafny verify dfyconfig.toml` checks everything.

## What is modelled

**Publication (Go).**  `Publication.dfy` is a step system: any number of threads publish, try to publish, publish
directly, log, wait for readiness, fail, shut down and close, beside one worker.  Every lock acquisition, channel
operation, atomic access and socket write is a step; a critical section that takes no further lock is one step.  The
environment decides which call an idle thread makes, whether a snapshot is valid, and whether a write succeeds, fails, or
fails after a fragment.  A history records admissions, returned markers and the frames on the wire.
`PublicationInvariant.dfy` states what holds, `PublicationSteps.dfy` proves it step by step, `PublicationLocks.dfy` the
lock order, `PublicationTheorems.dfy` what follows for every run, `PublicationProgress.dfy` who can move while others wait,
`PublicationWaiters.dfy` and `PublicationRescue.dfy` which readiness waiters can still be served, `PublicationLoss.dfy` and
`PublicationStranded.dfy` two runs worth knowing, `PublicationFatal.dfy` when the fatal frame is written, and
`PublicationAlone.dfy` what each call does from its first step to its last when no other thread moves, and
`PublicationAnswers.dfy` what its error means.  The handshake has been done; revisions start at 0.

**Publication (Rust).**  `RustQueue.dfy` is the Rust form as a class: one owner, one worker, a bounded channel.  Each
method is what one side does between two shared accesses, so an interleaving is an order of calls.

**Render admission.**  `RenderGate.dfy` is the Ratatui probe's three-valued gate, its try-locked session state, permits
held until a marker's bytes are appended, and the pending-failure flag, each atomic operation a step of its own;
`RenderGateFailure.dfy` is about what a failed gate still lets through, `RenderGateOutcomes.dfy` about when a session
starts, fails and ends and what one frame does.

**From render calls to a valid tree.**  `RenderHooks.dfy` (recording), `RenderTree.dfy` (building) and `Validate.dfy` with
`Forest.dfy` (checking) are three separate components; `RenderTreeNodes.dfy` says what a built node tells about its call,
`RenderTreeTheorems.dfy` joins the last two and `RenderDrawing.dfy` all three.

**Bytes and cells.**  `Framing*.dfy` (streaming decoder against a one-shot parse), `HitGrid*.dfy` (the two run
compressors against one grid and against each other), `UnifiedDiff*.dfy` (the patch applier), `Sha256*.dfy` with
`Primes.dfy` (against FIPS 180-4), `Json*.dfy` (the cursor reader against RFC 8259 texts), `Digest*.dfy` with `Utf8*.dfy`
(what the launch cache hashes), `Reachability.dfy` (the dependency worklist).  `Text.dfy`, `Decimal.dfy` and `Bytes.dfy`
hold the string and number operations they share.

**Logs.**  `LogBudget.dfy` is the token bucket over real numbers, the same in both clients; `LogRecords.dfy` the Rust
client's validation of a log record, `LogJson.dfy` the text it is about, `LogClient.dfy` the numbering of records.

## What the proofs found

Some natural claims are false of the code; each has a witness, and beside it the exact condition or the true claim.

- A returned marker does not mean delivery: after `Close` a write succeeds without writing (`MarkerWithoutDelivery`).
  What is true is that the wire is a prefix of what was admitted (`WireIsPrefixOfAdmitted`).
- A readiness waiter can wait for ever: a worker that stops on a transport failure while the queue is full never signals
  (`WaiterIsStranded`); `LeftBehindExactly` says which blocked waiters can still be served.
- A failed render gate does not stop the marker already in flight (`AppendedThroughFailedGate`); that one is all that can
  still be appended (`OnlyInFlightIsAppended`), and none published later is (`PublishedTooLateIsNeverAppended`).
- A frame ceiling of 2^32 or more lets the encoder wrap its length header (`WrappedHeaderIsRefused`, `RoundTripExactly`).
- The Go and Rust hit grids part where the viewport's size overflows 64 bits (`WrappedSizeParts`) and on empty recipient
  ids (`EmptyRecipientParts`); `GoAgreesWithRust` says exactly when they agree.
- A pure insertion below the first line, numbered as unified diffs number it, is applied one line early
  (`InsertionLandsEarly`) or refused right behind another hunk (`InsertionIsRefused`); `PrintThenApplyExactly` says when.
- A patched text can have fewer lines than the hunks say, because a line without a newline is glued to the next
  (`GluedLine`); `PatchedLineCount` says exactly when.
- File names that are not valid UTF-8 can make two trees hash the same bytes (`InvalidNamesCollide`), so a cache entry can
  pass for complete when a file was renamed (`RenamedFileGoesUnnoticed`); `DigestSeesTexts` and `CompleteSeesTexts` say
  exactly when.
- The JSON reader refuses texts that RFC 8259 allows: those with a surrogate escape, paired or not, in a string or key
  (`ClefIsRefused`); `TextReadsBack` and `MeaningIsReadExactly` say that these are all.
- At rate zero the token bucket refuses even its burst (`RateZeroWastesBurst`, `GreedyIsOptimal`).
- A log record's own `origin.seq` attribute can be lost to the client's hint of that name (`HintCanDisplace`);
  `HintDisplacesExactly` says when, and nothing else is lost (`HintTouchesOnlyItself`).
- Render ordinals are 32 bits wide; call 2^32 + 1 of a frame reuses ordinal 0 (`OrdinalsWrap`, `DrawFrameIsClean`).

## Model

| member | source | states |
|---|---|---|
| PublicationSteps.StepKeepsInv | clients/go/protocol/publication_queue.go:107-268 | every step of any thread (calls, worker, Close, readers, log senders) keeps the whole invariant: locks, channel, gate, revisions, jobs, wire |
| PublicationTheorems.RunKeepsInv | clients/go/protocol/publication_queue.go:53-268 | so the invariant holds in every state of every run from a connected client |
| PublicationTheorems.WireIsPrefixOfAdmitted | clients/go/protocol/client.go:449-458 | the semantic frames on the wire are a prefix of full(1), commit(1), ..., full(n), commit(n), n the last admitted revision; before the queue exists a direct call may be one pair ahead |
| PublicationTheorems.PairsAreNeverSplit | clients/go/protocol/client.go:449-458 | no frame of a log sender, Fail or Close ever sits between a tree and its commit, and only the last thing on the wire can be a fragment |
| PublicationTheorems.FatalFollowsEveryAdmittedPair | clients/go/protocol/publication_queue.go:225-259 | if the queue's fatal frame is on the wire, every admitted pair precedes it, complete and in order |
| PublicationFatal.FatalOnlyOnFail | clients/go/protocol/publication_queue.go:225-259 | the fatal frame, or a fragment of it, is on the wire only if Fail was called with a code |
| PublicationFatal.FailIsAnnounced | clients/go/protocol/publication_queue.go:225-259 | if Fail gave a code and the worker came to its end connected and has ended, the fatal frame or a fragment of it is on the wire, or in between another thread closed the client or the write of the frame failed |
| PublicationTheorems.ConnectedMeansDelivered | clients/go/protocol/client.go:677-722 | while the client is connected, nobody writes and the worker waits, everything it took is on the wire in full |
| PublicationTheorems.AdmissionsAreConsecutive | clients/go/protocol/publication_queue.go:107-159 | admitted revisions are r0+1, r0+2, ... without gap or repeat |
| PublicationTheorems.MarkersAreAdmissions | clients/go/protocol/publication_queue.go:107-159 | returned markers are the admitted revisions in order, at most one admission not yet returned |
| PublicationTheorems.RecheckNeverFires | clients/go/protocol/publication_queue.go:141-144 | the test `prepared.revision != revision+1` at admission never succeeds |
| PublicationTheorems.NothingAdmittedAfterClose | clients/go/protocol/publication_queue.go:211-236 | once Fail or Shutdown closed admission nothing is admitted any more, and the wire is only extended |
| PublicationAlone.PublishWithRoom | clients/go/protocol/publication_queue.go:107-159 | a valid publication, on its own and with room in the queue, takes the next revision, queues it, returns its marker, frees every lock and changes nothing else |
| PublicationAlone.PublishWithoutRoom | clients/go/protocol/publication_queue.go:145-158 | without room it takes no revision and only counts a drop and opens a readiness gate if none is open |
| PublicationAlone.PublishOnClosedQueue | clients/go/protocol/publication_queue.go:107-122 | on a failed or closed queue it changes nothing |
| PublicationAlone.PublishWithoutSession | clients/go/protocol/client.go:380-391 | nor without a connection |
| PublicationAnswers.ErrorsAreTrue | clients/go/protocol/publication_queue.go:107-159 | in every reachable state a call about to return an error has a reason that still holds: a failed worker, a closed queue or client, no session, a counted drop, a queue that owns the client, a client closed by a failed write |
| PublicationAnswers.RefusedAnswer | clients/go/protocol/publication_queue.go:107-122 | which error a call on its own gets: a failed queue before a closed one, either before a missing session |
| PublicationAnswers.AdmissionAnswer | clients/go/protocol/publication_queue.go:137-159 | with room the marker of the next revision, without it that the queue is full |
| PublicationAnswers.BusyAnswer | clients/go/protocol/publication_queue.go:99-112 | TryPublish answers busy while the publication lock is held |
| PublicationAlone.TryPublishBusy | clients/go/protocol/publication_queue.go:99-112 | nor does TryPublish while the queue's lock or the publication lock is held |
| PublicationAlone.NewQueueAlone | clients/go/protocol/publication_queue.go:53-88 | a new queue is open and empty, counts from the client's revision, and its worker waits |
| PublicationAlone.QueueFailAlone | clients/go/protocol/publication_queue.go:225-236 | Fail closes an open queue, marks it failed and keeps its code; a closed one it leaves alone |
| PublicationAlone.ShutdownAlone | clients/go/protocol/publication_queue.go:211-220 | Shutdown closes an open queue without failing it and waits in both cases |
| PublicationAlone.WorkerRound | clients/go/protocol/publication_queue.go:238-268 | one round of the worker: the oldest job is taken, a waiting gate closed, its tree and then its commit written |
| PublicationAlone.WorkerEnd | clients/go/protocol/publication_queue.go:250-259 | the end of a closed queue: the fatal frame exactly if Fail gave a code, then the client is closed |
| PublicationAlone.WorkerFails | clients/go/protocol/publication_queue.go:243-247 | a failed write, with or without some of its bytes: the queue has failed, the client is closed, the other jobs stay |
| PublicationAlone.DirectAlone | clients/go/protocol/client.go:336-368 | a direct publication writes the next revision's tree and commit, and nothing once a queue owns the client |
| PublicationAlone.LogAlone | clients/go/protocol/client.go:579-617 | a log call writes one record |
| PublicationAlone.CloseAlone | clients/go/protocol/client.go:246-276 | Close takes away connection and socket |
| PublicationAlone.ClientFailAlone | clients/go/protocol/client.go:278-293 | the client's Fail writes one report and closes |
| PublicationTheorems.CallAdmitsExactlyWhatItReturns | clients/go/protocol/publication_queue.go:90-159 | a call that returns an error consumed no revision; one that returns a marker admitted exactly that revision while it held the queue |
| PublicationTheorems.NeverPanics | clients/go/protocol/publication_queue.go:145-158 | no step sends on or closes a closed jobs channel, or closes a closed readiness gate |
| PublicationTheorems.SaturatedMeansGateOpen | clients/go/protocol/publication_queue.go:174-195 | whenever the queue's lock is free, `saturated` holds exactly while the current gate is open, and then a job is still queued or a signal still to be passed |
| PublicationProgress.NoWaiterLeftBehind | clients/go/protocol/publication_queue.go:240-268 | a thread blocked on an open gate waits for a worker that has a job to receive or a signal to pass; unless that worker stopped on a transport failure, it or a thread inside a critical section can take its next step |
| PublicationWaiters.LeftBehindForGood | clients/go/protocol/publication_queue.go:243-247 | a waiter that is blocked once the worker is past a failed write, or about to write to a closed socket, stays blocked in every later state |
| PublicationRescue.CanBeServed | clients/go/protocol/publication_queue.go:240-268 | from every other reachable state with a blocked waiter the run can go on so that its gate is closed, whatever locks are held |
| PublicationRescue.LeftBehindExactly | clients/go/protocol/publication_queue.go:240-268 | so a blocked waiter stays blocked however the run goes on exactly when the worker is past a failed write |
| PublicationStranded.WaiterIsStranded | clients/go/protocol/publication_queue.go:145-158 | a run that gets there: a queue of one, one revision taken, one admitted, one refused, and the write fails |
| PublicationTheorems.NoDeadlockCycle | clients/go/protocol/publication_queue.go:90-137 | no reachable state has a cycle of threads each waiting for the next |
| PublicationTheorems.SomeHolderCanMove | clients/go/protocol/client.go:667-683 | whenever a thread waits for a lock, some thread inside a critical section can take its next step |
| PublicationProgress.ShutdownIsNotStuck | clients/go/protocol/publication_queue.go:211-220 | while Shutdown waits, it can return because the worker has stopped, or the worker can take its next step, or a thread inside a critical section can |
| PublicationLoss.MarkerWithoutDelivery | clients/go/protocol/client.go:677-683 | a run in which a marker is returned and nothing is ever written: a write after Close succeeds without writing, so delivery of every marker is false |
| RustQueue.Open | clients/rust/src/publication_queue.rs:50-66 | refused exactly without capacity or connection |
| RustQueue.PublicationQueue.constructor | clients/rust/src/publication_queue.rs:111-122 | a new queue is open, empty and has written nothing |
| RustQueue.PublicationQueue.Publish | clients/rust/src/publication_queue.rs:134-188 | exactly when a publication is admitted, what each refusal changes, and that consecutive admissions and the wire prefix are kept whatever the worker does in between |
| RustQueue.PublicationQueue.Fail | clients/rust/src/publication_queue.rs:202-210 | three accesses, each keeping the order of what is admitted whatever the worker does in between: the flag, the reason, the end of admission |
| RustQueue.PublicationQueue.CloseAdmission | clients/rust/src/publication_queue.rs:216-217 | closes admission only |
| RustQueue.PublicationQueue.Joined | clients/rust/src/publication_queue.rs:216-222 | shutdown answers true only if every admitted pair was written in full |
| RustQueue.PublicationQueue.Receive | clients/rust/src/publication_queue.rs:77-80 | the worker takes publications in the order of their admission and ends only with an empty channel that is closed |
| RustQueue.PublicationQueue.Finish | clients/rust/src/publication_queue.rs:101-106 | it ends with every admitted pair on the wire, and only then the fatal frame |
| RustQueue.PublicationQueue.WriteFrame | clients/rust/src/publication_queue.rs:82-92 | a tree is followed by its own commit or by nothing; a failed write leaves a prefix |
| RustQueue.PublicationQueue.Die | clients/rust/src/publication_queue.rs:93-99 | a worker that lost its transport is gone only after the failure flag is set |
| RenderGateTheorems.StepKeepsInv | clients/rust-probe/src/session.rs:67-137 | every atomic step of every render and lifecycle thread keeps permits, mutex, markers and session consistent |
| RenderGateTheorems.AtMostOnePermit | clients/rust-probe/src/session.rs:67-113 | at most one render permit is live in any reachable state, for any number of threads |
| RenderGateTheorems.FailedGateIsAbsorbing | clients/rust-probe/src/session.rs:72-113 | a gate that reached FAILED stays FAILED, and at most one more marker is published after it |
| RenderGateFailure.OnlyInFlightIsAppended | clients/rust-probe/src/session.rs:258-346 | after FAILED nothing is appended, or exactly the one marker that was in flight when the gate failed |
| RenderGateFailure.PublishedTooLateIsNeverAppended | clients/rust-probe/src/session.rs:258-346 | a marker published after FAILED is never appended |
| RenderGateFailure.AppendedThroughFailedGate | clients/rust-probe/src/session.rs:258-346 | a run in which the marker in flight is appended through a failed gate |
| RenderGateTheorems.AppendedMarkersIncrease | clients/rust-probe/src/session.rs:258-346 | markers appended within a session have strictly increasing revisions |
| RenderGateTheorems.FailedSessionNeverReconnects | clients/rust-probe/src/session.rs:204-252 | a session that failed is never connected again |
| RenderGateTheorems.FailureStaysOnRecord | clients/rust-probe/src/session.rs:364-436 | once the gate failed the failure is on record: the session is dead, the pending flag is up, or a thread is about to raise it |
| RenderGateOutcomes.FrameOutcome | clients/rust-probe/src/session.rs:258-346 | in every reachable state the end of a frame of a live session takes exactly one revision, later than all published ones, and publishes its marker if the queue gave one; or, for a repeated key, a failed worker or a refusal, fails session and queue and publishes nothing |
| RenderGateOutcomes.NothingAfterFailure | clients/rust-probe/src/session.rs:301-342 | and after such a failure nothing is published in any later state |
| RenderGateOutcomes.SessionFailsExactly | clients/rust-probe/src/session.rs:258-436 | a live session fails exactly on such a frame, a frame without a sink, a gate that failed under a frame, a marker that could not be written or delivered, or a call outside a frame |
| RenderGateOutcomes.SessionStartsExactly | clients/rust-probe/src/session.rs:204-252 | a session starts exactly when initialize finds none and connects, with a fresh queue at revision 0 |
| RenderGateOutcomes.SessionMayRestartExactly | clients/rust-probe/src/session.rs:204-252 | one may start again exactly after a clean drain, tried only when no failure is pending |
| RenderGateOutcomes.SessionEndsExactly | clients/rust-probe/src/session.rs:204-252 | a session is over exactly after a shutdown, a failed connect, or a frame without a sink before any session |
| RenderGateOutcomes.ComplaintStaysOnRecord | clients/rust-probe/src/session.rs:364-436 | a hook that could not have the state is on record in every later state: the flag is up or the session dead |
| RenderGateOutcomes.FrameAlone | clients/rust-probe/src/session.rs:258-346 | a frame on its own: published and its marker appended, or the session failed; gate, permit and mutex are given up either way |
| RenderGateOutcomes.SecondFrame | clients/rust-probe/src/session.rs:67-113 | a frame that meets another one fails the gate and raises the flag, and touches nothing else |
| RenderGateOutcomes.ContendedFrame | clients/rust-probe/src/session.rs:258-290 | a frame whose state is held elsewhere raises the flag and fails the gate |
| RenderHooks.Probe.Draw | clients/rust-probe/src/lib.rs:345-483 | playing any nesting of renders, annotated renders, collections and frames through the hooks leaves the frames below and the enclosing annotated calls as they were, and adds to the current frame a call at the position the nesting gives it, with what it drew, its annotation, its parent and its report |
| RenderHooks.Probe.DrawWhole | clients/rust-probe/src/lib.rs:281-311 | a whole frame: an enabled probe is left as it was and hands out the calls its drawing shows; a dormant or disabled one is left alone and hands out none |
| RenderHooks.DrawFrameIsClean | clients/rust-probe/src/lib.rs:264-312 | drawing a frame leaves the outer frames as they were; it yields one call per render, less the claimed ones, and ordinals are positions with parents first exactly when that count, taken from the drawing, is at most 2^32 |
| RenderHooks.OrdinalsWrap | clients/rust-probe/src/lib.rs:345-366 | 2^32 + 1 renders give two calls the ordinal 0 |
| RenderHooks.DrawnCallsFollowNesting | clients/rust-probe/src/lib.rs:345-495 | the calls of a frame are those recorded along its nesting |
| RenderHooks.DrawnCallsDepict | clients/rust-probe/src/lib.rs:345-495 | read off the drawing alone: how many calls there are, at which position each render is, what it drew, its annotation, that its parent is the innermost annotated render around it, and that a collection report went to the call recorded last |
| RenderHooks.TakenOnce | clients/rust-probe/src/lib.rs:485-495 | taking empties the buffer: of two takes in one frame each hands out the calls drawn since the one before, numbered from zero |
| RenderTree.ResolveExactly | clients/rust-probe/src/tree.rs:306-323 | targets are known keys, none twice, and none left out before the limit is reached |
| RenderTreeTheorems.NodesHangWhereDrawn | clients/rust-probe/src/tree.rs:126-194 | a call's node hangs under its parent call's node and an item under its list |
| RenderTree.DuplicateKey | clients/rust-probe/src/tree.rs:196-206 | reports a key two calls carry, none exactly when all keys differ |
| RenderTree.ResolveRelations | clients/rust-probe/src/tree.rs:306-323 | known keys in order, each once, at most the limit |
| RenderTree.SnapshotFrom | clients/rust-probe/src/tree.rs:104-194 | gives up exactly on a repeated key, otherwise builds the specified nodes and roots |
| RenderTreeNodes.SnapshotTells | clients/rust-probe/src/tree.rs:104-194 | on the nodes themselves: where each call's node and each item's node stand, their ids and parents, and that labelledBy and describedBy are the known ones among the keys the annotation gave under that name, in order, each once, up to the limit |
| RenderTree.PushItems | clients/rust-probe/src/tree.rs:331-375 | one child per collection item, in order |
| RenderTreeTheorems.NamesApart | clients/rust-probe/src/tree.rs:118-143 | ids of different calls and of their items never coincide |
| RenderTreeTheorems.ParentsFirstMeansAcyclic | clients/rust/src/validate.rs:1547-1583 | a node list whose parents come first has existing parents and no cycle |
| RenderTreeTheorems.SnapshotIsForest | clients/rust-probe/src/tree.rs:104-194 | well-ordered calls with distinct keys build unique ids, exact roots, existing parents, bounded and resolvable relations, no cycle |
| RenderTreeTheorems.BuildAndValidate | clients/rust/src/validate.rs:1640-1880 | the validator can refuse such a snapshot only for its node count or its depth |
| RenderDrawing.DrawnKeys | clients/rust-probe/src/lib.rs:373-451 | the recorded calls have distinct keys exactly when the drawing's annotated renders do, claimed calls included |
| RenderDrawing.DrawnSnapshotIsForest | clients/rust-probe/src/lib.rs:264-495 | anything an application draws in one frame of at most 2^32 calls with distinct keys builds such a snapshot |
| RenderDrawing.DrawBuildValidate | clients/rust-probe/src/lib.rs:264-495 | drawing, building and validating in one go: the probe is left as it was, its calls depict the drawing, the nodes tell what the calls say, a snapshot is built exactly when the keys of the drawing are distinct, and it is accepted unless it has too many nodes or is too deep |
| Forest.DepthIsUnique | clients/rust/src/validate.rs:1547-1583 | a node has at most one depth |
| Forest.DepthMeansNoCycle | clients/rust/src/validate.rs:1547-1583 | a node with a depth is on no cycle |
| Validate.ComputeDepths | clients/rust/src/validate.rs:1547-1583 | succeeds exactly on acyclic parents, gives every node its exact depth with roots at 1, otherwise names a node on a cycle, and pushes each node at most once in all |
| Validate.CollectIds | clients/rust/src/validate.rs:1640-1652 | refuses exactly a repeated id |
| Validate.CheckRoots | clients/rust/src/validate.rs:1654-1678 | the root ids are distinct and name nodes |
| Validate.ValidateStructure | clients/rust/src/validate.rs:1640-1880 | accepts exactly the forests whose roots are rootIds, within the node, relation and depth limits; the code of a refusal names what is wrong, a list that is too long apart from a target that is missing |
| Framing.FrameDecoder.Push | clients/rust/src/framing.rs:161-180 | one push is one resumption of the one-shot parse; a violation is latched and later pushes fail; the buffer stays below ceiling + 4 |
| Framing.FrameDecoder.PushInner | clients/rust/src/framing.rs:182-232 | the trailing buffered-without-a-frame check never refuses |
| FramingTheorems.ParseResumes | clients/rust/src/framing.rs:182-232 | parsing a concatenation is parsing the first part and resuming with what it left |
| FramingTheorems.ParseSays | clients/rust/src/framing.rs:182-232 | any stream is the wire form of the frames parsed from it and a rest: each frame within the ceiling and accepted by the codec, the rest short of a frame, or refused for length zero, for a length above the ceiling, or by the codec with that code |
| FramingTheorems.ChunkingIsInvisible | clients/rust/src/framing.rs:161-232 | any cutting reaches the verdict and first violation of the one-shot parse; clean streams deliver exactly its frames, violating ones a prefix |
| FramingTheorems.CutsAgree | clients/rust/src/framing.rs:161-232 | two cuttings of one stream agree on verdict and code, and on a clean stream on everything |
| FramingTheorems.DeliveredBeforeViolation | clients/rust/src/framing.rs:161-232 | the frames lost to a violation are those completed in the push that met it |
| FramingTheorems.DecodeEncoded | clients/rust/src/framing.rs:29-51 | decoding concatenated encodings gives back exactly the bodies, for ceilings below 2^32 |
| FramingTheorems.RoundTripExactly | clients/rust/src/framing.rs:29-51 | one frame survives exactly when its body is non-empty and shorter than 2^32 bytes |
| FramingTheorems.CeilingsAgree | clients/rust/src/framing.rs:29-51 | under a positive ceiling the encoder refuses a body as oversized exactly when the decoder refuses its frame so |
| FramingTheorems.WrappedHeaderIsRefused | clients/rust/src/framing.rs:46-50 | with a ceiling of 2^32 or more a body of 2^32 bytes is sent with length 0 and refused |
| FramingTheorems.DecodeInChunks | clients/rust/src/framing.rs:161-232 | the same through any cutting, with nothing left in the buffer |
| HitGridLoops.Declare | clients/rust/src/evidence.rs:747-759 | the declared map, refused exactly when two declarations of a cell disagree |
| HitGridLoops.RustRow | clients/rust/src/evidence.rs:761-795 | one row of the Rust loop: its maximal runs, or the first disputed column |
| HitGridLoops.RustExactGrid | clients/rust/src/evidence.rs:736-798 | the Rust loop computes the specified grid or error |
| HitGridLoops.GoRow | clients/go/evidence/registry.go:496-524 | one row of the Go loop, with its flush closure |
| HitGridLoops.GoExactGrid | clients/go/evidence/registry.go:476-526 | the Go loop computes the specified grid or error |
| HitGridLoops.CheckRuns | clients/rust/src/validate.rs:1408-1438 | the validator accepts exactly non-empty runs whose neighbours are in row-major order |
| HitGridTheorems.Ordered | clients/rust/src/validate.rs:1408-1438 | comparing neighbours suffices: any two runs are in order and share no cell |
| HitGridTheorems.GridMeansHitTest | clients/rust/src/evidence.rs:760-797 | the runs decode cell by cell to the hit test, pass the validator and cannot be extended to either side |
| HitGridTheorems.GridIsFewest | clients/rust/src/evidence.rs:760-797 | every run list that decodes to the hit test, overlapping or not, has at least as many runs |
| HitGridTheorems.CellMeansDeclared | clients/rust/src/evidence.rs:747-759 | a cell is in conflict exactly when two regions with different recipients declare it, else it belongs to any that does |
| HitGridTheorems.ExactGridExactly | clients/rust/src/evidence.rs:736-798 | when a grid is returned, both directions, and that it then means the hit test |
| HitGridRefusals.RefusedExactly | clients/rust/src/evidence.rs:736-798 | when each error is returned, both directions; a disagreement names column and row of the first cell, in rows from the top and from the left, where the hit test names somebody else than the regions that declare it |
| HitGridTheorems.VerifiedGridShowsDeclared | clients/rust/src/evidence.rs:775-777 | a verified grid shows every declared cell of the viewport with its recipient |
| HitGridParity.GoCellMeans | clients/go/evidence/registry.go:483-494 | Go finds a cell in conflict exactly when a region with a non-empty recipient declares it and a later one with another |
| HitGridParity.GoAgreesWithRust | clients/go/evidence/registry.go:476-526 | for every input the two loops return the same exactly when there is no hit test, or the sizes are judged alike and, if not too large, a conflict in Rust means one in Go and, where there is none and declarations are verified, cells of empty recipients that nothing hits come behind a cell both dispute |
| HitGridParity.NamedRecipientsAgree | clients/go/evidence/registry.go:476-526 | which holds if no recipient is empty and the size fits 64 bits |
| HitGridParity.WrappedSizeParts | clients/go/evidence/registry.go:480-482 | at 2^32 by 2^32 cells Go goes on with a size of 0 and Rust refuses |
| HitGridParity.EmptyRecipientParts | clients/go/evidence/registry.go:483-494 | with an empty recipient they differ: Go takes it for none |
| Text.LinesOfJoin | clients/rust-probe/src/patchset.rs:345-346 | splitting joined lines gives the lines back |
| UnifiedDiff.ApplyBody | clients/rust-probe/src/patchset.rs:372-409 | the inner loop consumes and produces what the edits say |
| UnifiedDiff.ApplyHunk | clients/rust-probe/src/patchset.rs:358-414 | one round of the outer loop is one hunk of the specification |
| UnifiedDiff.ApplyUnifiedDiff | clients/rust-probe/src/patchset.rs:344-424 | the loops compute the specified result, errors included |
| UnifiedDiffTheorems.OkIsReplacement | clients/rust-probe/src/patchset.rs:344-424 | any Ok result splits the source into copied lines and exactly matching old sides, and is the source with those replaced |
| UnifiedDiffTheorems.AcceptedPatch | clients/rust-probe/src/patchset.rs:344-424 | the same for whole texts: the result is the replaced lines put together, source lines + sum of (new - old) of them |
| UnifiedDiffLines.PatchedLineCount | clients/rust-probe/src/patchset.rs:344-424 | the text itself never has more lines than that, and as many exactly when nothing is added behind a last source line without newline, and an added line without newline is not empty and ends the text |
| UnifiedDiffLines.TerminatedLineCount | clients/rust-probe/src/patchset.rs:344-424 | so it has as many if source and patch end in a newline |
| UnifiedDiffLines.GluedLine | clients/rust-probe/src/patchset.rs:384-392 | keeping a line and adding one without newline gives two lines where the hunk says three |
| UnifiedDiffTheorems.HeaderRoundTrip | clients/rust-probe/src/patchset.rs:426-462 | a printed hunk header is read back |
| UnifiedDiffRefusals.RangeReads | clients/rust-probe/src/patchset.rs:445-462 | every range: a start alone counts one line, a start and a count are both read, a second comma is refused |
| UnifiedDiffRefusals.ShortHeader | clients/rust-probe/src/patchset.rs:426-462 | a header whose ranges leave out their counts is read with counts of one |
| UnifiedDiffRefusals.BodyReads | clients/rust-probe/src/patchset.rs:372-409 | a body is the longest run of edits that match the source; it is read up to a line that ends it, or refused for the first line at fault, with the code of that fault |
| UnifiedDiffRefusals.HunkReads | clients/rust-probe/src/patchset.rs:358-414 | a hunk is refused exactly because it starts too early or too late, because of a line at fault, or because its header counts other lines than its body has |
| UnifiedDiffInsertions.PrintThenApplyExactly | clients/rust-probe/src/patchset.rs:337-424 | for every text and ordered, apart hunks that fit it, printing and applying is refused as out of order exactly when an insertion below line 1 comes right behind a hunk with an old side, else replaces the old sides where the hunks land; the result is the text meant exactly when it is not refused and every line inserted below line 1 without context equals the source line before it |
| UnifiedDiffInsertions.InsertionLandsEarly | clients/rust-probe/src/patchset.rs:359-366 | a line inserted between two lines comes out in front of both |
| UnifiedDiffInsertions.InsertionIsRefused | clients/rust-probe/src/patchset.rs:359-366 | a line inserted behind a hunk that keeps the line before it is refused |
| UnifiedDiffTheorems.RoundTrip | clients/rust-probe/src/patchset.rs:337-424 | for every text and ordered, apart hunks with old sides, printing and applying replaces exactly those old sides |
| Sha256.PadMessage | clients/rust-probe/src/patchset.rs:579-585 | the padding loop computes the padding of section 5.1.1 of FIPS 180-4 |
| Sha256.ZeroCountIsLeast | clients/rust-probe/src/patchset.rs:582-584 | no fewer zero bytes would align the block |
| Sha256.PadIsAligned | clients/rust-probe/src/patchset.rs:579-585 | whole blocks, and as few as the message needs |
| Sha256.PadInjective | clients/rust-probe/src/patchset.rs:579-585 | different messages are padded differently |
| Sha256.FillSchedule | clients/rust-probe/src/patchset.rs:588-603 | the in-place schedule is the recursive one |
| Sha256.ScheduleEquations | clients/rust-probe/src/patchset.rs:588-603 | which satisfies the equations of section 6.2.2 |
| Sha256.Turn | clients/rust-probe/src/patchset.rs:607-625 | one round on the eight variables |
| Sha256.CompressInPlace | clients/rust-probe/src/patchset.rs:605-629 | the 64 rounds and the final additions |
| Sha256.Sha256Hex | clients/rust-probe/src/patchset.rs:561-633 | for every message below 2^61 bytes the digest text of the standard's hash |
| Sha256.WordOperations | clients/rust-probe/src/patchset.rs:607-616 | the word operations act on each bit as XOR, AND and NOT |
| Sha256.RotrRotates | clients/rust-probe/src/patchset.rs:593-598 | the rotation used is ROTR of the standard |
| Sha256.ShrShifts | clients/rust-probe/src/patchset.rs:593-598 | the shift used is SHR of the standard: it drops the low bits |
| Sha256Bits.ChooseAndMajority | clients/rust-probe/src/patchset.rs:609-616 | in every bit, ch chooses between two words by a third and maj is the majority of three |
| Sha256Bits.BigSigmas | clients/rust-probe/src/patchset.rs:607-614 | in every bit, the big sigmas are the parity of three bits of the word, those of section 4.1.2, counted around |
| Sha256Bits.SmallSigmas | clients/rust-probe/src/patchset.rs:592-598 | the small sigmas likewise, the third bit from above where there is one |
| Sha256Bits.RoundUndone | clients/rust-probe/src/patchset.rs:607-625 | for any round constant and word, a round is a permutation of the states, with its inverse |
| Sha256Bits.RoundsUndone | clients/rust-probe/src/patchset.rs:605-625 | and so are the 64 rounds, for any schedule |
| Sha256Constants.ConstantsAreRoots | clients/rust-probe/src/patchset.rs:562-577 | the round constants are the first fractional bits of the cube roots, the initial values of the square roots, of the numbers of one table |
| Sha256Constants.ConstantsAreOfFirstPrimes | clients/rust-probe/src/patchset.rs:562-577 | which holds the first 64 primes in order |
| Sha256Constants.StartsWithRoots | clients/rust-probe/src/patchset.rs:574-577 | the eight variables start with the square roots of 2, 3, 5, 7, 11, 13, 17 and 19 in this order |
| Sha256.HexInjective | clients/rust-probe/src/patchset.rs:632-632 | the digest text determines the eight words |
| JsonReader.ReadValue | clients/rust-probe/src/patchset.rs:729-741 | terminates, moves the cursor forward on success and never past the end, and reads what the specification reads |
| JsonReader.ReadObject | clients/rust-probe/src/patchset.rs:758-783 | likewise for objects |
| JsonReader.ReadArray | clients/rust-probe/src/patchset.rs:785-802 | likewise for arrays |
| JsonReader.ReadString | clients/rust-probe/src/patchset.rs:804-838 | likewise for strings and escapes |
| JsonReader.ReadNumber | clients/rust-probe/src/patchset.rs:840-854 | the longest run of number characters, as the number parser takes it |
| JsonReader.ReadLiteral | clients/rust-probe/src/patchset.rs:743-756 | a literal is matched in full |
| JsonReader.ReadJson | clients/rust-probe/src/patchset.rs:716-721 | the whole reader |
| JsonTheorems.StringReads | clients/rust-probe/src/patchset.rs:804-838 | every spelling of a string is read as its meaning, or refused if it holds a surrogate escape |
| JsonTheorems.TextReadsBack | clients/rust-probe/src/patchset.rs:716-854 | every RFC 8259 text, any spelling and whitespace, is read as its value if no string or key in it holds a surrogate escape, and refused as a bad code point otherwise |
| JsonTheorems.MeaningIsReadExactly | clients/rust-probe/src/patchset.rs:716-854 | a text that stands for a value is read as that value exactly when it does without surrogate pairs |
| JsonTheorems.ClefIsRefused | clients/rust-probe/src/patchset.rs:826-829 | the surrogate pair d834 dd1e, the example of section 7 of RFC 8259, is refused while its character is read |
| JsonTheorems.PrintReadsBack | clients/rust-probe/src/patchset.rs:716-854 | printing any value and reading it gives the value back and uses up the text |
| Digest.PartIsPrefixFree | clients/rust-probe/src/launch.rs:393-396 | a length-prefixed part ends where its length says, whatever follows |
| Digest.CopyKey | clients/rust-probe/src/launch.rs:324-341 | the key is the first half of the digest of the nine parts, in the order framework, its version, source, probe version, toolchain, target, features, patch, probe path |
| Digest.KeyBytesInjective | clients/rust-probe/src/launch.rs:324-341 | equal key bytes imply equal parts |
| Digest.WalkRoot | clients/rust-probe/src/launch.rs:360-388 | the recursive walk writes the records of the tree in order, without the root's stamp |
| Digest.DigestCacheContents | clients/rust-probe/src/launch.rs:360-391 | the digest of a tree |
| Digest.CacheEntryComplete | clients/rust-probe/src/launch.rs:343-358 | complete exactly when the stamp is the key and the current digest, on two lines |
| DigestTheorems.RecordsDecode | clients/rust-probe/src/launch.rs:361-386 | equal bytes imply equal lists of records |
| DigestTheorems.RecordsDetermineTree | clients/rust-probe/src/launch.rs:361-386 | equal records imply equal listings, at any depth |
| DigestTheorems.TreeBytesInjective | clients/rust-probe/src/launch.rs:360-391 | equal bytes imply trees equal apart from the root stamp, for names that are valid Unicode |
| Utf8.LossyKeepsValid | clients/rust-probe/src/launch.rs:376-376 | the text of a name is the name exactly when it is valid UTF-8 |
| Utf8Text.ValidExactly | clients/rust-probe/src/launch.rs:376-376 | bytes are valid exactly when they are the encodings of section 3 of RFC 3629 of some code points, surrogates apart |
| Utf8Text.BrokenIsLongest | clients/rust-probe/src/launch.rs:376-376 | what is replaced at once is a byte that starts no character, or the longest start of one |
| DigestNames.DigestSeesTexts | clients/rust-probe/src/launch.rs:360-391 | the bytes of two trees are equal exactly when the trees are the same, root stamp aside, once every name is replaced by its text |
| DigestNames.WellNamedIsUtf8 | clients/rust-probe/src/launch.rs:376-376 | the condition under which trees are told apart is that their names are valid UTF-8 |
| DigestNames.Utf8TreesAreToldApart | clients/rust-probe/src/launch.rs:360-391 | so the bytes of trees with such names are equal exactly when the trees are, root stamp aside |
| DigestNames.InvalidNamesCollide | clients/rust-probe/src/launch.rs:376-376 | files named FF and FE (one byte each) with the same contents give equal bytes |
| DigestTheorems.CompleteExactly | clients/rust-probe/src/launch.rs:343-358 | for names that are their own text, a stamped entry is complete exactly when the keys agree and it holds what was stamped, or collides with it |
| DigestNames.CompleteSeesTexts | clients/rust-probe/src/launch.rs:343-358 | for all names: exactly when the keys agree and it holds what was stamped once every name is replaced by its text, or collides with it |
| DigestNames.RenamedFileGoesUnnoticed | clients/rust-probe/src/launch.rs:343-376 | an entry stamped with a file named FF is complete while it holds one named FE instead |
| Reachability.FindReachable | clients/rust-probe/src/patchset.rs:246-255 | the worklist ends on every graph and marks exactly what a chain of dependencies reaches |
| Reachability.ReachablePackages | clients/rust-probe/src/patchset.rs:199-260 | an error exactly for no roots or an unknown manifest; otherwise, for the roots asked for, the packages of the document that a path of listed dependencies over its nodes leads to, each in its place |
| Reachability.EdgesExactly | clients/rust-probe/src/patchset.rs:235-245 | an id's dependencies are those of the last node with that id, all of them |
| Reachability.FirstWithManifest | clients/rust-probe/src/patchset.rs:218-228 | the root of a manifest is the first package with that path, and there is none exactly when no package has it |
| Reachability.DependsOnIsReachable | clients/rust-probe/src/patchset.rs:235-255 | what the worklist's graph reaches is what paths over the document's nodes reach |
| Reachability.SelectedExactly | clients/rust-probe/src/patchset.rs:256-259 | they are those at exactly the reachable positions, in order |
| LogBudget.TokenBucket.constructor | clients/rust/src/client.rs:142-151 | a full bucket, negative rates and bursts counting as zero |
| LogBudget.FreshBucketAdmits | clients/rust/src/client.rs:142-151 | of calls made at once on a fresh bucket exactly the first rate + burst are granted, and none without a rate |
| LogBudget.TokenBucket.TakeOne | clients/rust/src/client.rs:154-167 | over its whole life, while the clock does not run backwards, the bucket never grants more than its capacity and the elapsed time pay for |
| LogBudget.WindowBound | clients/rust/src/client.rs:154-167 | any window admits at most capacity + rate * length |
| LogBudget.GreedyIsOptimal | clients/go/protocol/client.go:489-511 | on every prefix at least as many as any policy keeping the same ledger, when the rate is positive or no token is held |
| LogBudget.RateZeroWastesBurst | clients/rust/src/client.rs:154-157 | otherwise not: at rate zero a held burst is refused |
| LogClient.Client.SendLog | clients/rust/src/client.rs:512-553 | each call on an enabled client takes one number and is written, dropped or failed, never two of these; what is written is valid and is the caller's record with that number, its time and the client's revision, and at most the hint added |
| LogClient.WrittenExactly | clients/rust/src/client.rs:512-553 | a record is written exactly if the channel is open, the bucket has a token, the transport takes it and the completed record is valid, or becomes so by losing the caller's attribute of the hint's name |
| LogClient.EveryAttemptIsAccountedFor | clients/rust/src/client.rs:512-553 | in every run attempts = written + dropped + failed = the last number, and numbers on the wire strictly increase |
| LogClient.GapsCountLosses | clients/rust/src/client.rs:512-553 | the numbers missing from the wire count exactly the losses |
| LogRecords.ValidShrinks | clients/rust/src/logs.rs:220-357 | a valid record stays valid without any one of its attributes |
| LogJson.CountedIsWritten | clients/rust/src/logs.rs:220-235 | the size the limit is compared with is the length in UTF-8 of the record's JSON text, in whatever order the attributes are written |
| LogJson.BytesAreUtf8 | clients/rust/src/logs.rs:277-282 | a length compared with a limit is the number of bytes of the UTF-8 encoding |
| LogJson.VerdictSays | clients/rust/src/logs.rs:220-357 | a record passes exactly when nothing is wrong with it or its text, and the code of a refusal names something that is; depth comes first, length before everything but depth and the schema |
| LogClient.HintNeverInvalidates | clients/rust/src/client.rs:536-545 | the hint never makes a valid record invalid; where it is considered, the result is valid exactly when the record is without an attribute of that name |
| LogClient.HintCanDisplace | clients/rust/src/client.rs:536-545 | a caller's own attribute of that name can be lost |
| LogClient.HintDisplacesExactly | clients/rust/src/client.rs:536-545 | exactly when: where the hint is considered, the attribute gives way to the number, or to nothing if the number makes the record too long; elsewhere nothing changes |
| LogClient.HintTouchesOnlyItself | clients/rust/src/client.rs:536-545 | nothing but its own attribute changes, and the attribute ceiling is respected |

## Left out

- Sockets, named pipes, dialling, deadlines and the environment: a write succeeds, fails, or fails after a fragment.
- HMAC markers, base64 and serde: a marker is its revision, a frame body is bytes with an abstract decoder.
- The client's handshake, its reader's message handling beyond closing, debug lines and performance counters.
- The concurrent protocols are step relations over values, not shared mutable objects; a critical section that takes no
  further lock is one step, and the debug log's own leaf lock is not modelled.
- Provider callbacks are assumed to take no client lock.
- Field-by-field schema checks of the validator, including the painted-span run check: only identity, roots, parents,
  relations, cycles, depth and hit-grid runs.
- Framing and validation in Go, twins of the Rust forms.
- Node names, roles, geometry and state in a built snapshot: only ids, parents and relations.
- Machine-word overflow of `ceiling + 4`, of the revision and of the log sequence number.
- Digest.WalkRoot: a directory is given as its listing sorted by name; reading it, sorting it and I/O errors are not
  modelled.
- Reachability.ReachablePackages: starts from parsed packages and nodes; path comparison is a parameter.
- LogBudget.WindowBound: real arithmetic for floating point, and attempt times that do not decrease.
- UnifiedDiffTheorems.RoundTrip: hunk lines end in a newline; the applier refuses the marker for files without one.
- UnifiedDiffInsertions.PrintThenApplyExactly: likewise.
- LogRecords.ValidShrinks: records of the client's own type; JSON values that such a record never turns into (unknown
  fields, other kinds of values) are not modelled.
- JsonTheorems.TextReadsBack: number literals are those the number parser accepts, which is a parameter.
- The patch set's manifest, copying of crate trees, cache locks, the terminal guard's counter, the desktop host and the
  conformance suite.
