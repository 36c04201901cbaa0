# Durable and bounded cores of a mobile repair harness, modelled in Dafny

The repository drives mobile applications: it reserves fixture slots on remote services, forwards pointer input,
streams frames, takes in iOS archives, runs native tools under a guardian, and keeps its own disk state through
crashes. This project models the parts where a wrong step is hard to see by reading one function, and proves what
they promise over every input, every run or every crash point.

- **Fixture allocator** (`FixtureStore`, `FixtureRuns`, `FixtureSafety`, `FixtureLaws`, `FixtureCalls`,
  `FixtureCoordinator`): three tables and
  the critical sections that change them, run in any interleaving with late replies and restarts. The class holds
  the tables and each of its methods is one of those sections, or a loop over them.
- **Pointer transport** (`PointerSteps`, `PointerInvariant`, `PointerProofs`, `PointerTheorems`, `PointerPackets`,
  `PointerCalls`, `PointerClear`, `PointerScheduler`): one send in flight, edges before moves, a cancel before everything. A
  trace records which calls were accepted and what was sent.
- **Framed stream** (`Stream`, `StreamTheorems`): the chunked decoder against a one-shot parser.
- **Archive checks** (`Binary`, `BinaryEncoding`, `ZipPreflight`, `ZipEncoding`, `MachO`, `MachOEncoding`, `Paths`,
  `IpaMembers`, `IpaLaws`, `Symlinks`): ZIP metadata as in
  sections 4.3.12, 4.3.14, 4.3.15 and 4.3.16 of the PKWARE APPNOTE, Mach-O images and fat files, member trees, and
  symbolic links against a resolver that follows one component at a time.
- **Crash-consistent records** (`NativeJournal`, `NativeWorkspace`, `RecoveryMaterials`, `RecoveryStaging`): every
  file effect is a step, and `budget` says how many of them happen before the crash, so a contract that holds for
  every budget holds at every crash point.
- **Groovy insertion** (`GroovyLexer`, `GroovyGrammar`, `GroovyInsertion`, `GroovyTheorems`) and **byte relay** (`AdbRelay`).

`dafny verify dfyconfig.toml` checks the whole project.

## Conventions

A digest is represented by what it is taken of, so equal digests mean equal contents; a chained digest is the chain.
File identities, operation identities and packets are values. Wall-clock time is an argument of the step that reads
it. An error of the source is a `None`, a `Refused` or a `Failed`, whichever text it carries. What the network, a
process or a socket answers is an argument, and nothing is assumed of it, with one exception: the fixture adapter
reports an operation as ended only after it has received it. `FixtureSafety.DishonestAdapterBreaksIt` shows that
without this the central property fails.

Three promises hold only under a condition.

- Bytes after the end marker of a stream are noticed only inside the chunk that holds its last byte. The condition is
  exact (`Streams.ReadIterator` with `Streams.Report`, `StreamTheorems.TrailingBytesNeedTheirChunk`).
- A resolved symbolic link is where the file system's walk ends when every parent part of a target leaves a recorded
  directory. This condition is sufficient (`Symlinks.ResolveIsWalk`), not exact. Outside it, a parent part after a file
  or an unrecorded name is proved to mislead (`Symlinks.BrokenTargetsMislead`), and one after a link is shown to by an
  example (`Symlinks.LaterParentsMislead`). Within it, that the walk's links are all different, fit and are at most
  sixteen is exact; `Symlinks.RepeatedLinksAreRefused` is a path that meets a link twice.
- A wakeup of the pointer transport is lost (`PointerTheorems.ClearCanLoseAWakeup`) exactly when a down or a cancel is
  called after a clear and before the completion of a send that the clear made stale (`PointerClear.WakeupIsLostIff`,
  `PointerClear.NothingIsLostAcrossClears`).

## Model

| member | source | states |
|---|---|---|
| FixtureSafety.EveryRunKeeps | reproof/fixtures.py:482-1027 | in every run of reservations, admissions, sends, replies, lost results, retentions, reconciliations, seals and restarts, in any interleaving and with an adapter that ends only what it received, the whole table invariant holds |
| FixtureSafety.StepKeeps | reproof/fixtures.py:482-1027 | each single critical section keeps that invariant |
| FixtureSafety.AvailableSlotsAreSettled | reproof/fixtures.py:620-821 | in every run an available slot has only complete or failed operations in its generation and, if it has any, one is a complete cleanup that saw nothing unresolved before it |
| FixtureSafety.WhatFreesASlot | reproof/fixtures.py:763-798 | a slot becomes available only by the release of a generation without operations, or by the attested, fenced completion of a safe cleanup after which nothing else is unresolved |
| FixtureSafety.ReplyFreesOnlyAfterSafeCleanup | reproof/fixtures.py:739-798 | the reply that frees a slot is fenced, attested, of a cleanup admitted with nothing unresolved before it, and leaves no other operation unresolved |
| FixtureSafety.UnsafeCleanupNeverFrees | reproof/fixtures.py:686-692 | a cleanup admitted while an effect was unresolved never frees its slot, whatever happens before its reply arrives |
| FixtureSafety.DishonestAdapterBreaksIt | reproof/fixtures.py:716-731 | the assumption on the adapter is needed: a run in which it reports an operation complete before receiving it ends with an available slot and an operation that is only dispatched |
| FixtureSafety.StepsFollowTheDiagram | reproof/fixtures.py:482-1027 | every step moves an allocation along the phase diagram; only a reservation takes one out of the current table, and only an available one |
| FixtureSafety.QuarantineHolds | reproof/fixtures.py:1011-1024 | over any run a quarantined slot stays quarantined unless a cleanup is admitted or a generation that never started is released: replies, reconciliations and restarts never free an orphaned slot |
| FixtureSafety.StepKeepsTables | reproof/fixtures.py:482-1027 | no step but a reservation changes which allocations are current, and none but a reservation and a seal changes the history |
| FixtureSafety.RunKeepsFacts | reproof/fixtures.py:695-699 | what an admission recorded about an operation never changes over a run |
| FixtureSafety.ReadyMeansEverythingComplete | reproof/fixtures.py:564-597 | in every run a ready allocation has a complete preparation and a complete check for every check of its plan, and nothing of its generation is unfinished |
| FixtureSafety.PhaseNeverGoesBack | reproof/fixtures.py:564-597 | no step takes a generation to an earlier phase |
| FixtureSafety.PhasesOnlyMoveForward | reproof/fixtures.py:564-597 | over whole runs phases move only forward |
| FixtureSafety.PreparationStartsTheGeneration | reproof/fixtures.py:669-671 | a preparation is admitted only into a generation without any operation |
| FixtureSafety.OnePreparationPerAllocation | reproof/fixtures.py:669-671 | in every run at most one preparation exists for an allocation |
| FixtureSafety.NoCheckAfterCleanup | reproof/fixtures.py:672-679 | a check is admitted only while its generation has no cleanup and nothing unresolved |
| FixtureSafety.OnlyAdmissionsInsert | reproof/fixtures.py:695-705 | only an admission adds an operation |
| FixtureSafety.LateResultsStayInTheirGeneration | reproof/fixtures.py:739-821 | a result touches only the row its handle names, and no current row once that allocation is history |
| FixtureSafety.RestartSettles | reproof/fixtures.py:390-403 | after any run, a restart leaves every allocation available or quarantined, every operation complete, failed or unknown, and the invariant in place |
| FixtureSafety.IssuedNeverAgain | reproof/fixtures.py:494-533 | an identity that was issued at any point of a run is never issued again: a later reservation of it changes nothing |
| FixtureSafety.IssuedIdentityHasOnePlace | reproof/fixtures.py:497-527 | in every run an issued identity is held by exactly one of the current table and the history |
| FixtureSafety.ReuseRaisesTheGenerationByOne | reproof/fixtures.py:511-527 | reusing a slot retires the old row unchanged and raises the generation by exactly one |
| FixtureSafety.HistoryIsFrozen | reproof/fixtures.py:516-517 | a history row never changes and its identity never becomes current again |
| FixtureSafety.SealedNeverReserved | reproof/fixtures.py:890-921 | once an identity is sealed no later reservation of it succeeds |
| FixtureSafety.ExecutedAtMostOnce | reproof/fixtures.py:716-720 | over all restarts each operation identity reaches the adapter at most once |
| FixtureCoordinators.FixtureCoordinator.constructor | reproof/fixtures.py:390-403 | opening the store over any reachable earlier state is the restart step |
| FixtureCoordinators.FixtureCoordinator.FindHolder | reproof/fixtures.py:500-501 | the scan finds the row that holds a slot, or that there is none |
| FixtureCoordinators.FixtureCoordinator.CountUnresolved | reproof/fixtures.py:675-692 | the scan finds whether the generation has an unresolved operation: any, of effects only, or besides one |
| FixtureCoordinators.FixtureCoordinator.Reserve | reproof/fixtures.py:482-533 | a handle is returned exactly when the identity is new and its slot is free or available; the tables change as in the reservation step |
| FixtureCoordinators.FixtureCoordinator.Admit | reproof/fixtures.py:635-708 | the admission section: refusals, the recorded outcome of a known identity with its expiry, or a new row with its unsafe mark; what each does to the tables is FixtureCalls.NothingAdmitted, KnownIsReplayed and NewIsAdmitted |
| FixtureCoordinators.FixtureCoordinator.FinishRemote | reproof/fixtures.py:739-801 | recording a reply is the reply step, also for stale handles and wrong fences |
| FixtureCoordinators.FixtureCoordinator.Settle | reproof/fixtures.py:750-798 | the state, phase and reason that a fenced reply leaves |
| FixtureCoordinators.FixtureCoordinator.SetUnknown | reproof/fixtures.py:803-821 | an uncertain result leaves the operation unknown and the row of that generation quarantined |
| FixtureCoordinators.FixtureCoordinator.Dispatch | reproof/fixtures.py:716-718 | the send marks the operation dispatched unconditionally |
| FixtureCoordinators.FixtureCoordinator.Operate | reproof/fixtures.py:620-731 | one operation is its admission and, only if that is new, its send; the status is none exactly for a refusal and complete exactly for a known complete operation or a confirmed new one; a known identity is answered with its recorded state and changes nothing while it is retained, and is unknown in a quarantined row once the retention has passed |
| FixtureCoordinators.FixtureCoordinator.Send | reproof/fixtures.py:709-731 | an adapter that cannot fence is never called and the result is recorded as lost; otherwise the operation is dispatched once and its answer recorded, and it ends complete exactly when the answer attests that |
| FixtureCoordinators.FixtureCoordinator.Prepare | reproof/fixtures.py:564-597 | the steps of the call, and that it completes exactly when every effect is authorized and passes in its turn and the allocation is still going forward; then it is ready with every receipt |
| FixtureCoordinators.FixtureCoordinator.RunChecks | reproof/fixtures.py:579-586 | the loop passes exactly when every check is authorized and passes in the state the one before it leaves, and stops at the first that does not |
| FixtureCalls.PreparationCompletesIff | reproof/fixtures.py:564-597 | the preparation of an allocation just reserved completes exactly when the adapter can be fenced, every effect is authorized and the completion of every one is attested |
| FixtureCalls.NothingAdmitted | reproof/fixtures.py:635-668 | nothing changes for a handle that names no current row in use of its plan, fixture, generation and owner, or for an identity known from another call |
| FixtureCalls.KnownIsReplayed | reproof/fixtures.py:650-667 | a known identity presented again changes nothing while its outcome is retained; from the moment the retention ends the operation is unknown and the row quarantined as expired |
| FixtureCalls.NewIsAdmitted | reproof/fixtures.py:669-708 | a new identity is admitted exactly while there is room and the phase calls for its kind; the whole new row, its unsafe mark, the phase and whether it may be sent |
| FixtureLaws.ReservationIsExact | reproof/fixtures.py:482-533 | a reservation succeeds exactly for a new identity and a free or available slot while the history has room; the new row, the retired one and every table after it |
| FixtureLaws.ReplyIsExact | reproof/fixtures.py:739-761 | what a reply does to its operation: nothing through a stale handle, unknown on a wrong fence, and otherwise the end it reports only if that is retained and not from the future |
| FixtureLaws.ReplyMovesTheRow | reproof/fixtures.py:762-798 | what a reply does to its row, phase and reason, for each kind and answer |
| FixtureLaws.LossIsExact | reproof/fixtures.py:803-821 | a lost result leaves the operation unknown and quarantines the row only if it is still of that generation |
| FixtureLaws.SendIsExact | reproof/fixtures.py:709-720 | only a send hands an operation to the adapter, and it marks just that operation dispatched |
| FixtureLaws.MarksAreExact | reproof/fixtures.py:588-1027 | what becoming ready, being retained and ending a reconciliation do to the row, and when they do nothing |
| FixtureLaws.RecoveryMarksAreExact | reproof/fixtures.py:855-921 | a generation without operations is released exactly for its own plan, owner and device, and an identity is sealed exactly when it is new and there is room |
| FixtureLaws.RestartIsExact | reproof/fixtures.py:390-403 | what a restart makes of each operation and each row |
| FixtureCoordinators.FixtureCoordinator.Reconcile | reproof/fixtures.py:987-1027 | every operation of the generation is asked for once; it ends complete or failed exactly when its end is attested and unknown otherwise; a slot that was neither being cleaned nor available ends quarantined |
| FixtureCoordinators.FixtureCoordinator.RetainForCleanup | reproof/fixtures.py:844-852 | a retained slot is quarantined |
| FixtureCoordinators.FixtureCoordinator.SealUnstartedReservation | reproof/fixtures.py:890-921 | the marker is written once, and recognised for the same caller |
| FixtureCoordinators.FixtureCoordinator.Inspect | reproof/fixtures.py:940-975 | what a recovery finds, each exactly under its condition: already given back, now or in history, nothing started, to be cleaned, and a denial otherwise |
| FixtureCoordinators.FixtureCoordinator.RecoverCleanup | reproof/fixtures.py:923-985 | a recovery is a legal run; its verdict is exact: a quarantined generation is recovered exactly when the end of each of its operations is attested and a new cleanup is confirmed |
| FixtureCalls.CleanupOutcome | reproof/fixtures.py:669-798 | a cleanup of a quarantined slot frees it exactly when it is new, confirmed and nothing before it is unresolved |
| FixtureCoordinators.CurrentAvailableIsClean | reproof/fixtures.py:966-973 | an available bound allocation with operations always carries the cleanup evidence a recovery asks for |
| PointerTheorems.StepKeeps | live-web/pointer.js:43-196 | every call, timer and completed send except clear keeps the scheduler invariant, including a second cancel while one is in flight |
| PointerTheorems.EveryReachedStateKeeps | live-web/pointer.js:43-196 | every state of every run without clear satisfies the invariant |
| PointerTheorems.OneSendAtATime | live-web/pointer.js:162-188 | sends and completions alternate over the whole trace: at most one send is in flight, and it is the last one sent |
| PointerTheorems.SlotsAreDistinctAndBounded | live-web/pointer.js:33-62 | active gestures have slots of their own, below the bound of at most five |
| PointerTheorems.SlotsSeeWholeRuns | live-web/pointer.js:121-196 | each slot sees runs of the down, the moves and the up of one gesture, possibly cut short by a cancel |
| PointerTheorems.NewDownWaitsForRelease | live-web/pointer.js:33-62 | a slot sees a new down only after its previous up, or a cancel, has completed |
| PointerTheorems.SentMovesAreASubsequence | live-web/pointer.js:64-82 | the moves sent for a gesture are moves accepted for it, in order, each at most once |
| PointerTheorems.LastMoveIsSentBeforeTheUp | live-web/pointer.js:121-147 | when the up is sent, the last accepted move has been sent before it and none is accepted afterwards |
| PointerTheorems.CancelPreempts | live-web/pointer.js:102-119 | after a cancel request the cancel is in flight, or it is pending behind the one send in flight with nothing queued |
| PointerTheorems.PendingCancelIsNext | live-web/pointer.js:162-170 | while a cancel is pending no step sends anything but that cancel |
| PointerTheorems.CancelEmptiesActive | live-web/pointer.js:180-185 | a completed cancel leaves no active gesture and no waiting caller |
| PointerTheorems.NothingIsLost | live-web/pointer.js:121-188 | whenever nothing is in flight no edge is queued, no cancel pending, no active gesture closing or undispatched, and every pending move has its timer |
| PointerTheorems.LongestWaitingMoveIsChosen | live-web/pointer.js:149-160 | no ready gesture has waited longer than the one whose move is chosen |
| PointerPackets.PacketsCarryTheirCalls | live-web/pointer.js:43-170 | in every run a down carries the body and slot of the accepted down of its gesture, an up the body of the accepted up of that gesture, and a cancel the body of the first cancel called since the cancel before it was sent |
| PointerCalls.DownIsExact | live-web/pointer.js:43-62 | a down is accepted exactly for a pointer that is not down, outside a cancel and with a free slot; it opens one gesture in the least free slot |
| PointerCalls.MoveIsExact | live-web/pointer.js:64-82 | a move is accepted exactly while its gesture is open and replaces the pending one; behind a send in flight it waits, ready once the interval has passed and for its timer until then |
| PointerCalls.IdleMoveIsSent | live-web/pointer.js:64-82 | with nothing in flight a move that is due is sent at once and its time noted, and one that is not due waits for its timer |
| PointerCalls.TimerIsExact | live-web/pointer.js:73-79 | a timer that still stands lets the pending move of an open gesture go, and does nothing else |
| PointerCalls.UpIsExact | live-web/pointer.js:84-100 | an up is accepted exactly while its gesture is open and no cancel is pending |
| PointerCalls.CancelIsExact | live-web/pointer.js:102-119 | a cancel is always accepted, closes every active gesture without its move, and its caller waits |
| PointerCalls.UnknownPointerIsRefused | live-web/pointer.js:64-100 | moves and ups for a pointer that is not down change nothing |
| PointerTheorems.FirstLiveEdgeIsChosen | live-web/pointer.js:121-147 | the edge chosen is that of the first gesture in the queue that is not stale; there is none only when all are |
| PointerTheorems.ClearCanLoseAWakeup | live-web/pointer.js:198-210 | with clear the previous property fails: a concrete run leaves a down queued while nothing is in flight |
| PointerClear.WakeupIsLostIff | live-web/pointer.js:172-210 | after a clear with a send in flight, the completion of that send leaves the scheduler idle with something to send exactly when a down or a cancel was called after the last clear before it |
| PointerClear.NothingIsLostAcrossClears | live-web/pointer.js:172-210 | in every run with clears, in which no down and no cancel is called while a send from before the last clear is in flight, an idle scheduler has nothing to send; a clear with nothing in flight is always such a clear |
| PointerClear.TwinStep | live-web/pointer.js:43-210 | after a clear the scheduler behaves step by step as one that was never cleared |
| PointerClear.EveryRunIsDated | live-web/pointer.js:162-210 | in every run, with clears or without, the send in flight is of this or an earlier generation |
| PointerScheduling.PointerScheduler.constructor | live-web/pointer.js:8-29 | a new scheduler is empty, with at most five slots |
| PointerScheduling.PointerScheduler.AvailableSlot | live-web/pointer.js:33-37 | the least slot below the bound that no active gesture uses, if any |
| PointerScheduling.PointerScheduler.ChooseEdge | live-web/pointer.js:121-147 | stale queue entries are dropped; then the down, the last move or the up of the first live gesture is chosen; what it carries is PointerPackets.PacketsCarryTheirCalls |
| PointerScheduling.PointerScheduler.ChooseMove | live-web/pointer.js:149-160 | the ready gesture that has waited longest is chosen |
| PointerScheduling.PointerScheduler.StartNext | live-web/pointer.js:162-170 | edges first, then the cancel or the moves; nothing while a send is in flight |
| PointerScheduling.PointerScheduler.PointerDown | live-web/pointer.js:51-62 | a down is accepted exactly for a new pointer with a free slot outside a cancel, and is queued |
| PointerScheduling.PointerScheduler.PointerMove | live-web/pointer.js:64-82 | a move replaces the pending one and is sent now or by its timer |
| PointerScheduling.PointerScheduler.TimerFires | live-web/pointer.js:73-79 | a timer makes the pending move of an open gesture ready |
| PointerScheduling.PointerScheduler.PointerUp | live-web/pointer.js:84-100 | an up closes the gesture once and queues its edge |
| PointerScheduling.PointerScheduler.CancelAll | live-web/pointer.js:102-119 | a cancel closes every active gesture, drops pending moves and the queue, and keeps the first pending cancel packet |
| PointerScheduling.PointerScheduler.SendCompleted | live-web/pointer.js:172-188 | a completion settles its packet and starts the next send, unless it belongs to an older generation |
| PointerScheduling.PointerScheduler.RemoveActive | live-web/pointer.js:180-185 | removing gestures while iterating removes every one |
| PointerScheduling.PointerScheduler.Clear | live-web/pointer.js:198-210 | clear forgets everything but the send in flight |
| Streams.ReadIterator | live-web/stream.js:52-141 | for every chunking the yielded messages and the outcome are those of the one-shot parser on the joined bytes, the buffer stays within its bound, its overflow error is unreachable, and no chunk is asked for that was not needed |
| Streams.Uint32OfPut | live-web/stream.js:22-25 | four big-endian bytes read back as the number they encode |
| Streams.PutOfUint32 | live-web/stream.js:22-25 | and any four bytes are the encoding of what is read |
| StreamTheorems.ChunkingIsIrrelevant | live-web/stream.js:52-141 | two chunkings of the same bytes yield the same messages and the same error, except that bytes after the end marker may go unnoticed |
| StreamTheorems.TrailingBytesNeedTheirChunk | live-web/stream.js:127-131 | every body with bytes after its end marker fails in one chunking and ends normally in another: they are noticed only inside the chunk of the marker |
| Streams.BoundaryInside | live-web/stream.js:127-131 | the end of the marker is the end of a chunk exactly when nothing of that chunk is left, the condition under which the stream ends normally |
| StreamTheorems.MoreBytes | live-web/stream.js:81-134 | more bytes only add messages to a truncated stream and change nothing once the decoder has stopped |
| StreamTheorems.TruncationIsNoticed | live-web/stream.js:86-90 | a stream cut anywhere before the end of its end marker never ends normally and yields a prefix of the messages |
| StreamTheorems.RoundTrip | live-web/stream.js:52-141 | decoding the encoding of any frames and one end marker gives exactly those frames, each with its parsed header and its whole image, and that marker |
| StreamTheorems.AcceptedAreEncodings | live-web/stream.js:52-141 | whatever is accepted is the encoding of frames and one end marker |
| StreamTheorems.EncodedStreamIsDelivered | live-web/stream.js:52-141 | an encoded stream, cut anyhow, is delivered completely and ends normally |
| StreamTheorems.YieldedFramesAreSound | live-web/stream.js:27-45 | every yielded frame has a body within its bounds and an id, geometry, size, time, orientation and type within theirs; an end marker has a known reason and comes last |
| StreamTheorems.ReadingIsExact | live-web/stream.js:27-45 | a record within the length bounds is delivered, with its parsed header and its whole body, exactly when the header keeps every listed bound; otherwise the error names a bound that is broken |
| StreamTheorems.EveryBodyIsExplained | live-web/stream.js:81-134 | whatever the bytes, the messages are those of the frames they begin with, and the decoder stops for the reason the bytes after them give |
| StreamTheorems.DefaultBounds | live-web/stream.js:52-63 | absent bounds are 16384 and 3145728 bytes, and larger ones are refused before reading |
| ZipPreflight.FindEndRecord | reproof/ios_artifact_transfer.py:1193-1210 | the backward search ends, and finds the end record whose comment reaches the end of the file with no later signature in doubt, or shows there is none |
| ZipPreflight.ReadDeclared | reproof/ios_artifact_transfer.py:1211-1254 | the directory that the end record or its ZIP64 record declares, or none for multi-disk and misplaced records |
| ZipPreflight.CountRecords | reproof/ios_artifact_transfer.py:1266-1284 | true exactly when the declared number of records fills the range |
| ZipPreflight.TilesAreCounted | reproof/ios_artifact_transfer.py:1266-1284 | any tiling of the range by records is the one the walk counts |
| ZipPreflight.CountedAreTiles | reproof/ios_artifact_transfer.py:1266-1284 | a completed walk is a tiling without gap or overlap |
| ZipPreflight.Preflight | reproof/ios_artifact_transfer.py:1185-1285 | accepts a directory exactly when the end records declare it within the bounds and exactly the declared number of records tile it up to the end record |
| ZipPreflight.AcceptedOnce | reproof/ios_artifact_transfer.py:1185-1285 | at most one directory is accepted for a file |
| ZipPreflight.AcceptedIsBounded | reproof/ios_artifact_transfer.py:1255-1284 | an accepted directory lies in the file right before an end record, with between one and the permitted number of records, at most one for every 47 of its bytes |
| ZipEncoding.ArchiveIsAccepted | reproof/ios_artifact_transfer.py:1185-1285 | a file that ends with a central directory and its end record, written as the format says, is accepted with exactly that directory |
| ZipEncoding.ExtendedArchiveIsAccepted | reproof/ios_artifact_transfer.py:1218-1247 | the same with the ZIP64 record and locator |
| ZipEncoding.AcceptanceIsExact | reproof/ios_artifact_transfer.py:1185-1285 | and nothing else is accepted: a file is accepted with a directory exactly when it is an archive on one disk, written one way or the other, of that directory, with every later signature that of a whole record whose comment ends elsewhere, within the bounds |
| ZipPreflight.TilesAreDisjoint | reproof/ios_artifact_transfer.py:1266-1284 | records follow each other without overlap |
| ZipPreflight.EndRecordIsUnique | reproof/ios_artifact_transfer.py:1198-1207 | there is at most one end record |
| MachO.WalkCommands | reproof/ios_artifact_transfer.py:788-811 | the walk accepts exactly the declared number of well-formed commands with at most one identifier, which it returns |
| MachO.ReadImage | reproof/ios_artifact_transfer.py:773-811 | an image is parsed exactly as its header and commands say |
| MachO.ImageIsSound | reproof/ios_artifact_transfer.py:773-811 | an accepted image has commands that tile the declared range exactly in the declared number, and the identifier returned is the only one |
| MachO.SoundIsImage | reproof/ios_artifact_transfer.py:773-811 | and every such image is accepted |
| MachO.ReadFat | reproof/ios_artifact_transfer.py:819-859 | a fat file is accepted exactly when its table fits and every entry is sound by itself and against those before it; the slices are those the entries point at |
| MachO.ReadSlices | reproof/ios_artifact_transfer.py:814-859 | one image or several, by the magic number |
| MachO.SlicesAreApart | reproof/ios_artifact_transfer.py:839-847 | any two accepted slices are disjoint, past the table, inside the file and of different architectures |
| MachO.SlicesFitTheFile | reproof/ios_artifact_transfer.py:839-847 | the sizes of accepted slices add up to no more than the file past its table |
| MachO.SlicesAreSound | reproof/ios_artifact_transfer.py:848-858 | the load commands of every accepted slice tile the range its header declares in the declared number, and the code signatures they name lie inside the slice |
| MachOEncoding.PictureIsAccepted | reproof/ios_artifact_transfer.py:773-817 | an image written field by field, of either byte order and word size, is told by its magic number and accepted with its own architecture and identifier |
| MachOEncoding.TableIsRead | reproof/ios_artifact_transfer.py:819-838 | a fat table written field by field is read back entry by entry |
| MachOEncoding.FatFileIsAccepted | reproof/ios_artifact_transfer.py:819-859 | a fat file of such entries, apart and of different architectures, is accepted, and each slice is that of its image |
| MachOEncoding.AcceptedIsWithinBounds | reproof/ios_artifact_transfer.py:773-787 | every accepted image keeps the listed architectures, file types and bounds of its header |
| MachOEncoding.AcceptedTableIsWithinBounds | reproof/ios_artifact_transfer.py:819-847 | every accepted fat table has between one and 64 entries of listed architectures, inside the file |
| Paths.SplitJoin | reproof/ios_artifact_transfer.py:108-112 | splitting a path and joining the parts gives the path back |
| Paths.JoinSplit | reproof/ios_artifact_transfer.py:108-112 | joining parts without slashes and splitting gives the parts back |
| Paths.CutAtSlash | reproof/ios_artifact_transfer.py:1396-1398 | what stands before a slash of a joined path is the path of its first parts |
| IpaMembers.CheckMember | reproof/ios_artifact_transfer.py:1344-1382 | a member is accepted alone exactly when its name, flags, method, sizes, kind, mode and place are |
| IpaMembers.FirstPass | reproof/ios_artifact_transfer.py:1337-1383 | names that differ in more than case, bounded sums and the set of applications; a failure rules out every acceptance |
| IpaMembers.EnterMember | reproof/ios_artifact_transfer.py:1396-1405 | entering a member and its directories succeeds exactly while the tree is unambiguous and within the limit |
| IpaMembers.SecondPass | reproof/ios_artifact_transfer.py:1387-1405 | true exactly when every member belongs to the application and the whole tree, implicit directories included, is unambiguous and within the limit |
| IpaMembers.Validate | reproof/ios_artifact_transfer.py:1337-1406 | accepts exactly the member lists of one application with an unambiguous bounded tree |
| IpaMembers.TreeIsPrefixClosed | reproof/ios_artifact_transfer.py:1396-1404 | every directory a path passes through is a directory of the tree |
| IpaMembers.FilesAreLeaves | reproof/ios_artifact_transfer.py:1400-1404 | no file is a proper ancestor of another node, even up to case |
| IpaMembers.AcceptedTreeIsBounded | reproof/ios_artifact_transfer.py:1337-1406 | nodes are at most the permitted number, no two differ only in case, sizes stay within the limit and within a thousand times the compressed size |
| IpaMembers.MembersAreNodes | reproof/ios_artifact_transfer.py:1396-1404 | every member inside the application is a node of its own kind |
| IpaMembers.FoldingKeepsCount | reproof/ios_artifact_transfer.py:1400-1405 | folding loses no node, so the table of folded paths counts the nodes |
| IpaMembers.AcceptedOnce | reproof/ios_artifact_transfer.py:1384-1385 | at most one application is accepted for a list |
| IpaLaws.RelativeIsExact | reproof/ios_artifact_transfer.py:90-115 | a path is accepted exactly when it is plain parts joined by slashes: printable, composed, of at most 1024 units, without backslash, zero and the names of the current and parent directory |
| IpaLaws.MemberIsExact | reproof/ios_artifact_transfer.py:1344-1382 | a member alone is accepted exactly when its name is a path of the payload with a closing slash for a directory, its contents are stored or deflated within the limits, and its Unix mode is that of a directory or regular file without the refused bits |
| IpaLaws.TreeIsExact | reproof/ios_artifact_transfer.py:1393-1405 | the tree is the members inside the application and the directories that their paths go through, and nothing else |
| IpaLaws.ListIsExact | reproof/ios_artifact_transfer.py:1337-1406 | a list is accepted exactly when its members are, no two names fold to the same, the files fit, one application is named and everything else is the payload or inside it, and the places inside are unambiguous and within the limit |
| Symlinks.ParseTarget | reproof/ios_artifact_transfer.py:118-132 | a target is accepted exactly with plain names and parent parts only, and its parts spell it |
| Symlinks.TargetReadsBack | reproof/ios_artifact_transfer.py:118-132 | plain names and parent parts, joined, are accepted and read back as they were unless the whole is too long or not in composed form |
| Symlinks.Resolve | reproof/ios_artifact_transfer.py:539-568 | resolution ends by the depth limit and returns a recorded file or directory |
| Symlinks.OneLinkOnAPath | reproof/ios_artifact_transfer.py:555-565 | at most one prefix of a path is a link, so the longest one is the only one |
| Symlinks.LinksStayInside | reproof/ios_artifact_transfer.py:528-536 | whatever the target, the path a link is replaced with stays inside the bundle |
| Symlinks.ResolveAtLink | reproof/ios_artifact_transfer.py:546-566 | a path whose longest linked prefix is admitted resolves as the place the link points to followed by the rest, whether the rest is empty or not |
| Symlinks.ResolveIsWalk | reproof/ios_artifact_transfer.py:539-568 | when every parent part of a target leaves a recorded directory, resolution returns an entry exactly when following the path component by component reaches it within the depth limit over links that are all different and whose targets fit |
| Symlinks.PlainIsGrounded | reproof/ios_artifact_transfer.py:528-536 | targets whose parent parts all come first are such targets |
| Symlinks.ResolvedIsReached | reproof/ios_artifact_transfer.py:539-568 | any entry returned is the one the component-by-component walk reaches |
| Symlinks.LaterParentsMislead | reproof/ios_artifact_transfer.py:530 | with a parent part after a link the two disagree: a concrete tree resolves to another file |
| Symlinks.BrokenTargetsMislead | reproof/ios_artifact_transfer.py:528-536 | when the first parent part that does not leave a recorded directory leaves a file or a name that is not recorded, with no link on the way, no walk gets past the link, yet resolution returns the entry the target is normalized to if that is recorded |
| Symlinks.RepeatedLinksAreRefused | reproof/ios_artifact_transfer.py:550-561 | a path that meets one link twice is refused although following it ends at a file |
| NativeJournal.EveryNumberOnce | reproof/android_native_calls.py:267-268 | every sequence number issued so far is live or folded into the history, and only once |
| NativeJournal.AdmittingIsSound | reproof/android_native_calls.py:259-269 | recording a new intent keeps the workspace accepted and the numbers conserved |
| NativeJournal.WritingIsSound | reproof/android_native_calls.py:270-275 | any partial write of a listed file while preparing keeps it accepted |
| NativeJournal.PreparingEnds | reproof/android_native_calls.py:279-281 | binding the record to the six written files keeps it accepted |
| NativeJournal.RetiringIsSound | reproof/android_native_process.py:120-122 | declaring a call retiring keeps it accepted |
| NativeJournal.RemovingIsSound | reproof/android_native_process.py:123-128 | removing any file of a call that is not prepared keeps it accepted |
| NativeJournal.FoldingIsSound | reproof/android_native_process.py:130-137 | emptying a slot while folding its number once keeps the numbers conserved |
| NativeJournal.GuardianIsSound | reproof/android_native_process.py:198-203 | the guardian may rewrite its three records |
| NativeJournal.EditIsExact | reproof/android_native_calls.py:125-163 | a file put into a slot is accepted exactly when it is one of those listed, within its size, of the recorded identity and, once prepared, of the recorded contents |
| NativeJournal.RemovalIsExact | reproof/android_native_calls.py:125-163 | a file may be missing from a slot exactly while its record is not prepared |
| NativeJournal.IntentIsExact | reproof/android_native_calls.py:125-163 | a preparing record is accepted in an empty slot exactly when its number, phase, generation and output bound are within theirs and the number is not taken |
| NativeWorkspaces.Workspace.constructor | reproof/android_native_calls.py:54-78 | a fresh workspace is accepted and has issued nothing |
| NativeWorkspaces.Workspace.Validate | reproof/android_native_calls.py:125-163 | accepts exactly the workspaces described, and reports them unresolved exactly when some slot is occupied |
| NativeWorkspaces.Workspace.WriteBytes | reproof/android_native_calls.py:176-188 | a file is created and grown by writes of any size; a crash between any two leaves the workspace sound, and one effect more than the bytes is enough to finish |
| NativeWorkspaces.Workspace.Prepare | reproof/android_native_calls.py:224-284 | every crash point is sound; success is the next number, the six files and the record bound to them; only the chosen slot changes, and eight effects more than the bytes written are enough |
| NativeWorkspaces.Workspace.GuardianWrites | reproof/android_native_process.py:198-211 | a guardian write changes one file in place |
| NativeWorkspaces.Workspace.Retire | reproof/android_native_process.py:111-137 | every crash point is sound with the slot occupied and the history unchanged; success empties the slot and folds its number |
| NativeWorkspaces.Workspace.RetireSlot | reproof/android_recovery.py:196-215 | one slot is retired from whatever a crash left of it: the record, as retiring unless it was still preparing, is folded with the bytes of every file found, and nothing else of the journal changes |
| NativeWorkspaces.Workspace.RetireForRecovery | reproof/android_recovery.py:189-215 | every crash point is sound; with sixteen effects it always completes, with both slots empty and the history grown by exactly the records and files of the occupied slots, in their order |
| NativeWorkspaces.Workspace.RecoverThroughCrashes | reproof/android_recovery.py:189-215 | however calls were prepared, retired or recovered in processes that crashed anywhere, a recovery with sixteen effects left ends with both slots empty and every number issued folded into the history exactly once |
| RecoveryMaterials.RecordingIsSound | reproof/android_recovery_materials.py:154-160 | the first record keeps the disk accepted |
| RecoveryMaterials.CreatingIsSound | reproof/android_recovery_materials.py:164-168 | creating an empty file before its identity is recorded keeps it accepted |
| RecoveryMaterials.RegisteringIsSound | reproof/android_recovery_materials.py:172-175 | recording the identity of the empty file keeps it accepted |
| RecoveryMaterials.WritingIsSound | reproof/android_recovery_materials.py:98-117 | any partial copy into a file whose identity is recorded keeps it accepted |
| RecoveryMaterials.FinishingIsSound | reproof/android_recovery_materials.py:180-183 | marking complete copies prepared keeps it accepted |
| RecoveryMaterials.PreparedIsExact | reproof/android_recovery_materials.py:24-85 | once prepared, both packages are staged byte for byte and are what consumers are told to expect |
| RecoveryMaterials.ExpectedIsStaged | reproof/android_recovery_materials.py:88-95 | an expectation that is given out is the staged file |
| RecoveryMaterials.ExpectationReadsNoBytes | reproof/android_recovery_materials.py:88-95 | what is expected is told from identities and lengths alone, without reading a byte of the staged files |
| RecoveryMaterials.StatusTells | reproof/repair_android_operation.py:1394-1470 | each status says exactly what is on disk, from the admitted files untouched to nothing left; a disk that no status describes is refused, such as one with bytes in a file whose identity is not recorded |
| RecoveryMaterials.IntendingIsSound | reproof/android_recovery_finalization.py:175-179 | the durable intent to discard keeps the disk accepted |
| RecoveryMaterials.StagingIsSound | reproof/android_recovery_finalization.py:182-183 | moving the stage to discarding keeps it accepted |
| RecoveryMaterials.DroppingIsSound | reproof/android_recovery_finalization.py:184-186 | moving prepared copies to discarding keeps it accepted |
| RecoveryMaterials.RemovingIsSound | reproof/android_recovery_finalization.py:189-203 | removing any staged file while discarding keeps it accepted |
| RecoveryMaterials.RemovedIsExpected | reproof/android_recovery_finalization.py:193-201 | what is removed is the file that was expected there |
| RecoveryMaterials.EmptyingIsSound | reproof/android_recovery_finalization.py:207-213 | the three closing records, in their order, keep the disk accepted and end at the discarded stage |
| RecoveryStagings.RecoveryStaging.ValidateMaterials | reproof/android_recovery_materials.py:24-85 | accepts exactly the record and file sets described |
| RecoveryStagings.RecoveryStaging.ReadStageStatus | reproof/repair_android_operation.py:1394-1470 | checks the record and every file, then tells the status from the three records; what it means is RecoveryMaterials.StatusTells |
| RecoveryStagings.RecoveryStaging.CopyApk | reproof/android_recovery_materials.py:98-121 | a copy of what the source yields, cut anywhere, touches only a registered file; it succeeds exactly with the exact bytes unless the process ends within one effect and one for each byte |
| RecoveryStagings.RecoveryStaging.PrepareApk | reproof/android_recovery_materials.py:161-179 | one package: created if missing, registered, copied, in at most three effects and one for each byte |
| RecoveryStagings.RecoveryStaging.Prepare | reproof/android_recovery_materials.py:124-190 | every crash point is accepted and can be prepared by a later call; refusal, failure and success are decided by the stage and the packages offered, and with enough effects left the call is not cut short |
| RecoveryStagings.RecoveryStaging.PrepareThroughCrashes | reproof/android_recovery_materials.py:124-190 | however often it crashed, failed or was refused, an attempt with the right packages and enough effects ends prepared with both files byte-exact |
| RecoveryStagings.RecoveryStaging.RemoveStaged | reproof/android_recovery_finalization.py:187-206 | every staged file is removed after its check, which never fails on an accepted disk |
| RecoveryStagings.RecoveryStaging.Discard | reproof/android_recovery_finalization.py:163-213 | every crash point is accepted and not refused later; it is refused exactly while staging or copying is incomplete, and nine effects are enough to end discarded with nothing staged |
| RecoveryStagings.RecoveryStaging.DiscardThroughCrashes | reproof/android_recovery_finalization.py:163-213 | repeated through any number of crashes a discard ends discarded with nothing staged as soon as it has nine effects left |
| GroovyLexer.ReadTokens | reproof/groovy_integration.py:14-79 | the token loop computes the tokens of the source, or rejects it, with policy and size checks |
| GroovyLexer.ScanText | reproof/groovy_integration.py:39-49 | the string loop finds the end of the string |
| GroovyLexer.ScanName | reproof/groovy_integration.py:55-58 | the name loop finds the end of the name |
| GroovyLexer.ScanBlank | reproof/groovy_integration.py:26-37 | blanks and comments are skipped to their end |
| GroovyTheorems.TokensAreTheSource | reproof/groovy_integration.py:22-79 | tokens are ordered, disjoint and stand in the source; everything else is blank or in a comment outside all tokens; brackets pair up around deeper tokens only |
| GroovyTheorems.TokensAreWhole | reproof/groovy_integration.py:38-76 | names are maximal, strings are quoted on one line, everything else is one character of its kind |
| GroovyTheorems.BlankIsComment | reproof/groovy_integration.py:26-37 | skipped text is one blank, a line comment or a block comment without a nested one |
| GroovyInsertion.LexShifts | reproof/groovy_integration.py:22-79 | tokens do not depend on where their text stands |
| GroovyInsertion.ScanIsLocal | reproof/groovy_integration.py:24-76 | a token depends only on its own characters and the next one |
| GroovyInsertion.CutAfterOpen | reproof/groovy_integration.py:82-93 | what follows an opening bracket can be replaced without changing the tokens before it |
| GroovyGrammar.ScanIsExact | reproof/groovy_integration.py:22-79 | the lexer reads a piece of a kind and length exactly when the source starts with text spelled as the grammar of that kind |
| GroovyGrammar.AcceptanceIsExact | reproof/groovy_integration.py:14-79 | a source is accepted exactly when it lexes, is within its size in UTF-8 and its number of tokens, without the refused characters, and with every token permitted |
| GroovyTheorems.FoundBlock | reproof/groovy_integration.py:82-93 | the block of a name is found, at the end of its brace, exactly when the tokens lead with it and no other outermost token is that name; it is absent exactly when none is and it is not required; every other source is denied |
| GroovyTheorems.ConfigurationIsExact | reproof/groovy_integration.py:96-105 | when the configuration succeeds, and then the two files: the settings and the module, in this order, each the given text with its one insertion |
| GroovyTheorems.ConfigurationKeepsTokens | reproof/groovy_integration.py:96-105 | taking the insertion out gives each file back, and each changed file has the original tokens around the inserted ones |
| GroovyTheorems.SecondApplicationIsRefused | reproof/groovy_integration.py:96-105 | neither changed file is ever accepted again |
| AdbRelay.Relay | reproof/adb_endpoint.py:131-154 | in every run each side is sent a prefix of what the other produced, in order, no write follows a half-close, a half-close follows everything, buffers and totals are bounded; a normal end delivered everything and shut both sides; and sockets that give and take at least a byte bring it to that end; it fails in its last round only, and only if that was halted or a socket broke off, or too much was sent |
| AdbRelay.ReceiveAll | reproof/adb_endpoint.py:137-145 | receives of one round, in either order, keep every byte in order, within the buffer bounds, and make progress; they fail when a side that was asked breaks off, and otherwise only when too much was sent |
| AdbRelay.SendAll | reproof/adb_endpoint.py:146-149 | sends of one round keep every byte in order and make progress; they fail when a side with something pending takes nothing, and never while both sides take something |
| AdbRelay.ShutAll | reproof/adb_endpoint.py:150-154 | afterwards every side with nothing more to come has been half-closed |
| AdbRelay.ClosedIsDelivered | reproof/adb_endpoint.py:135-135 | when nothing is readable and nothing pending, both sides have everything |

## Left out

- Sockets, HTTP, SQLite, file descriptors, locks and inode signatures, beyond their effect on the modelled state; one step is one critical section or one file effect.
- The temporary name that a record is written under before it replaces the old one: replacement and exclusive creation are single effects here, so a crash that leaves such a name behind is not modelled.
- Hashing, JSON, property lists and the archive library itself; a parser is an argument where its result matters.
- Timestamps of fixture rows, the plan registry, the adapter's transport, the issuer check of handles, and idempotency keys, which are determined by what is compared beside them.
- Wall-clock limits: no rate limit of moves, no deadline of a recovery or a relay is claimed; a deadline that passes, or an authority revoked in the middle of a reconciliation, is a crash or a halted round.
- Move packets of a pointer carry a number for their object identity; the resolution of promises is only counted; a cleared timer does not fire.
- `PointerScheduler.clear` in runs: what slots see and which moves are sent is stated for runs without it, because a clear forgets gestures whose down was sent; that nothing is lost is stated for runs with it.
- PointerTheorems.NothingIsLost: whether a send ever completes is the network's business, so no delivery in time is claimed.
- Chunks that are not binary, a missing body and the release of the stream reader.
- A Mach-O file whose length differs from its recorded size, and the dSYM file type, which only adds one permitted value.
- The path object's own normal form in the iOS path check, which the other conditions already imply, and encodings that fail.
- The scan of a directory tree: the shape it guarantees is the precondition of the symbolic-link theorems.
- The command line and gateway checks that precede a native call, and the fields of its request; the owner fields come from descriptors that were validated before.
- `stage.json` and the identity fields that bind records to one operation, which never change while these functions run.
- The original `discard_staged`, whose steps are those of the recovery's discard without a recovery record.
- Connection setup and the service queries of the device gateway; only its relay loop is modelled.
- Interface code, command dispatch, schema validators, the Android build orchestration and the device recovery runs, which would add easy members or rest on parts that are not part of this model.
