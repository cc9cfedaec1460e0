# Baleen engine: delta transfer, transfer controls and their neighbours

Baleen pushes Docker images between machines on a local network. A sender drops from the
image tarball the layers the receiver already owns, the receiver puts them back from its disk
cache, and remembers the new ones for the next time. While bytes flow, either user can pause,
resume or cancel. This project models that engine in Dafny and proves what it promises.

| files | what they model |
|---|---|
| `Tarball`, `Digests`, `Prune`, `Stitch`, `Storage`, `Cache` | tarballs, manifests, pruning, stitching, the layer cache and the ledger |
| `Delta`, `Receiver` | the round trip of one push, what a receive teaches the receiver |
| `Coherence`, `Harm` | any number of interleaved receives, half-written cache files, failures and garbage collections |
| `Alone`, `TornLayer` | runs of one transfer: what a receive achieves alone, and what a full disk can do to it |
| `ProgressWriter`, `WriteMachine` | pause, resume and cancel: the object, and the writer they block |
| `ControlProtocol`, `PauseAgreement` | the two sides of a transfer, and when they agree on the pause |
| `ByteStream` | the copy loop with throttling, short writes, pauses and cancels |
| `Approvals`, `ApprovalMachine` | the queue of incoming requests, and its concurrent handlers, polls and cancels |
| `LoadAndTag`, `PeerRegistry`, `LineWriter` | backup tags, the peer registry, streamed log lines |

How things are represented:

- A tarball is a sequence of entries, a name and bytes. Readers take the first entry of a name,
  the image loader the last. The two JSON decoders are parameters (`Json`).
- `truth` gives the content a digest stands for. `WellFormed` collects what is assumed of an
  image: its digests describe its main layers, layer paths are files of the tarball other than
  `manifest.json`, and paths and digests determine each other.
- The source's mutable objects (tar writer, layer cache, ledger, progress writer, readers and
  writers, approval store, registries, Docker store, line writer) are classes, and its scanning
  loops are methods with loops. Each is proved against a function on values. Interleavings are
  state machines over these functions: a run is a list of steps, a step that does not apply
  changes nothing, and theorems hold after every list of steps.
- In `Coherence` caching a layer takes two steps, since creating its file truncates it: until it is
  completed, the file may hold any bytes. A failing disk stops between the two.
- In `WriteMachine` a write runs in micro-steps, in `ByteStream` control calls come before each of
  its steps; a control call is one step. Bytes from receiver to sender arrive in order, messages
  from sender to receiver in any order.
- `Party` stands for the owner strings: `Nobody` for the empty one, `Stranger` for any string
  other than `sender` and `receiver`.

Where the code does not do what one would expect, the code is kept and the exact condition is proved:

- The map from digest to path keeps the last path of a digest. An image with the same layer under
  two paths loses the first one when that layer is owned (`Delta.RepeatedLayerLosesAPath`).
  `Delta.RoundTrip` says for each split when nothing is lost, and
  `Delta.EverySplitRoundTripsIffOnePath` for which images that holds of every split.
- Caching reads item 0 of the manifest, pruning and stitching the first longest item. A receive
  whose main item is not item 0 completes but learns nothing (`Receiver.SecondItemTeachesNothing`;
  exactly when it learns: `Receiver.LearnsIffMainItemIsFirst`).
- A cached layer is rewritten in place with every image that brings anything new, so for a moment its
  file is torn. Most such moments pass; two do harm: the last writer of a file that the ledger claims
  or a transfer relies on gives up, or a transfer is stitched in between. Everything stays right or is
  being repaired if and only if neither happens (`Harm.HealthyIffNoHarm`), and the delivered images are
  right if and only if the second does not (`Harm.ImagesRightIffStitchedFromTruth`). A disk that fills
  up once makes the next push of an image wrong (`TornLayer.TornLayerIsShipped`).
- A comment at `internal/transfer/sender.go:73` calls unreadable digests non-fatal. In the code
  pruning then always fails (`Receiver.UnreadablePushFails`).
- A backup tag is overwritten when the tarball carries that very tag (`LoadAndTag.BackupTagIsTaken`;
  exactly then: `LoadAndTag.OldImageKeptIffTagIsForeign`). An inspection that fails counts as "unused",
  so an older backup can be overwritten too (`LoadAndTag.OlderBackupIsLost`; exactly when:
  `LoadAndTag.BackupIsFreshIff`).
- An error of `LoadAndTag` leaves the name where it was, unless the reply of a load that moved it was lost
  (`LoadAndTag.NameMovesDespiteError`; exactly then: `LoadAndTag.NameMovesUnlessError`).
- The two sides can end up disagreeing on who paused: when both users pause, crossing or not
  (`ControlProtocol.CrossingPausesDisagree`, `PauseAgreement.SecondPauseIsStranded`), and when the
  sender's resume overtakes its pause (`PauseAgreement.OvertakenPauseIsShown`). They are bound to
  agree if and only if no call overlaps the other side's pause or a message in flight
  (`PauseAgreement.AgreementIffNoOverlap`).
- An approval request can be dropped undecided: by two handlers that race
  (`ApprovalMachine.RacingHandlersLoseARequest`), or by one handler, a cancel and a poll
  (`ApprovalMachine.CancelAndPollLoseARequest`). It happens if and only if a handler clears a front
  request that nobody has loaded or decided (`ApprovalMachine.LostIffClearedByMistake`).
- A comment at `internal/cli/repl.go:58` says that cancelled requests are skipped. One whose
  receiver has already read the rejection is served as open (`ApprovalMachine.DeadRequestIsServed`;
  exactly when: `ApprovalMachine.ServedIsWaitingIffUndecided`).
- A decision goes to the request that is at the front by then, which need not be the one the user saw
  (`ApprovalMachine.ApprovalReachesAnother`; exactly when it is: `ApprovalMachine.DecisionReachesShownIff`).

## Model

| member | source | states |
|---|---|---|
| Tarball.FirstNamed | internal/transfer/manifest.go:25-41 | reading by name gives the first entry of that name, or nothing when no entry has it |
| Tarball.ReadManifest | internal/transfer/manifest.go:18-44 | the scan returns the decoded first manifest.json, or which of the two errors |
| Tarball.ManifestIsRead | internal/transfer/manifest.go:18-44 | each of the three outcomes, by what the first manifest.json entry holds |
| Tarball.MainIndex | internal/transfer/manifest.go:53-65 | the main item is the first of the longest ones; none exactly when every item is empty |
| Tarball.GetMainManifestItem | internal/transfer/manifest.go:47-68 | the loop with the running maximum finds that first longest item of the manifest |
| Tarball.GetLayersFromTarball | internal/transfer/tarball.go:11-48 | the digests offered are the diff ids of the main item's config, with every error case |
| Tarball.OfferedDigestsAre | internal/transfer/tarball.go:11-48 | ids are offered if and only if they are what the first entry named by the first longest item's config decodes to; likewise each of the five errors |
| Tarball.ManifestReadingsAgree | internal/transfer/cache.go:30-37 | item 0 is the main item if and only if it has as many layers as the main one |
| Tarball.ContentsAt | internal/transfer/stitch.go:55-90 | a loaded file is the data of the last entry of its name, which is why appended entries win |
| Digests.CacheDirInjective | internal/transfer/cache.go:73-74 | two valid digests never share a cache directory |
| Digests.DigestsAndTheirDirectories | internal/transfer/cache.go:73-74 | a digest is `sha256:` and 64 hexadecimal digits, and its directory `sha256-` and the same digits |
| Digests.LastWinsAt | internal/transfer/stitch.go:48-51 | a map filled in list order holds, for each key, the value at the key's last position |
| Digests.WithinKeepsOrder | internal/transfer/receiver.go:235-244 | the owned part of a list is the list read at increasing positions, exactly those in the set |
| Digests.OutsideKeepsOrder | internal/transfer/receiver.go:235-244 | the same of the missing part |
| Prune.BuildSkipSet | internal/transfer/prune.go:28-41 | the skip set is the set of paths of the layers that were not asked for |
| Prune.CopyTarExcluding | internal/transfer/prune.go:53-92 | the copy is the input read at increasing positions, exactly those with a name outside the skip set |
| Prune.KeptIsSelection | internal/transfer/prune.go:70-91 | kept entries form an in-order subsequence that omits nothing else |
| Prune.BytesConserved | internal/transfer/prune.go:70-91 | content bytes of the input are those kept plus those dropped |
| Prune.PruneTarball | internal/transfer/prune.go:12-25 | pruning refuses a digest list of the wrong length and otherwise gives the kept entries |
| Prune.PruneRefusesIff | internal/transfer/prune.go:12-25 | pruning succeeds if and only if the first longest item has as many layers as digests are given; when it reports a mismatch or no layers |
| Prune.PruneIsExact | internal/transfer/prune.go:28-41 | a file disappears exactly when it is the path of a layer not asked for; other files keep their bytes |
| Prune.MissingLayersSurvive | internal/transfer/prune.go:34-39 | a layer asked for survives if and only if every layer at its path was asked for |
| Prune.KeptFirstNamed | internal/transfer/prune.go:79-82 | first-match readings of a name outside the skip set are unchanged by pruning |
| Stitch.BuildDigestToPathMap | internal/transfer/stitch.go:37-53 | the loop builds the digest to path map, or fails on a length mismatch |
| Stitch.CopyAllTarEntries | internal/transfer/stitch.go:56-80 | all payload entries are appended, in order and unmodified |
| Stitch.InjectOneLayer | internal/transfer/stitch.go:93-121 | one cached file is appended under its path, or its digest is reported and nothing written |
| Stitch.InjectCachedLayers | internal/transfer/stitch.go:83-90 | owned layers are appended in list order; a failure names a digest without a file and leaves what comes before it |
| Stitch.InjectedSucceeds | internal/transfer/stitch.go:83-121 | injection succeeds if and only if every owned digest has a cached file; entry by entry what it appends |
| Stitch.StitchTarball | internal/transfer/stitch.go:14-34 | the rebuilt tarball is the payload followed by the injected layers, with every error case |
| Stitch.StitchedIsPayloadThenLayers | internal/transfer/stitch.go:14-121 | the payload, then for each owned digest its file under the path at the digest's last position; otherwise the first owned digest without a file, or the manifest's error |
| Storage.LayerCache.WriteCachedLayer | internal/transfer/cache.go:72-90 | the file of one digest is replaced, is left with the first bytes when the copy stops, or stays when it cannot be created; all other files stay |
| Storage.Ledger.HasLayer | internal/ledger/database.go:132-144 | true exactly for known digests |
| Storage.Ledger.MarkLayersAsOwned | internal/ledger/database.go:120-130 | known digests grow by exactly the list; history untouched |
| Storage.Ledger.RecordCommit | internal/ledger/database.go:77-87 | one history key is set; known digests untouched |
| Storage.Ledger.ClearLedgerOnly | internal/ledger/database.go:201-211 | history is emptied, known digests stay |
| Storage.Ledger.ClearCacheMemory | internal/ledger/database.go:214-224 | known digests are emptied, history stays |
| Cache.BuildLayerDigestMap | internal/transfer/cache.go:24-39 | the path to digest map over item 0, refused on a length mismatch |
| Cache.LayerDigestsAre | internal/transfer/cache.go:24-39 | the map pairs the layers of item 0 with the digests, and is refused exactly for another length or an unreadable manifest |
| Cache.ExtractedAt | internal/transfer/cache.go:42-69 | after a scan each file holds the last entry cached in it, or what it held before |
| Cache.ExtractMatchingLayers | internal/transfer/cache.go:42-69 | the cache after the scan, entry by entry, and whether it got through, for every behaviour of the disk |
| Cache.ScanStops | internal/transfer/cache.go:59-89 | a failed scan has cached everything before its first fault, has torn that layer and touched nothing else |
| Cache.ExtractAndCacheLayers | internal/transfer/cache.go:14-21 | a failed map leaves the cache as it was, otherwise it is as the scan left it |
| Delta.PruneThenStitchSucceeds | internal/transfer/receiver.go:156-192 | as long as the owned digests have files both operations succeed and the manifest is read unchanged throughout |
| Delta.InjectedContents | internal/transfer/stitch.go:93-121 | stitched entries restore exactly the mapped paths of owned digests, with the contents of the original |
| Delta.RoundTrip | internal/transfer/stitch.go:14-121 | the rebuilt tarball loads as the original if and only if no pruned path is forgotten |
| Delta.OnePathRemembersAll | internal/transfer/stitch.go:48-51 | with one path a digest nothing is forgotten, for every split |
| Delta.AllRememberedIffOnePath | internal/transfer/stitch.go:48-51 | every split remembers all paths, and the split that owns everything does, if and only if no digest has two paths |
| Delta.EverySplitRoundTripsIffOnePath | internal/transfer/stitch.go:14-121 | with all layers cached, every split round-trips if and only if no layer is stored under two paths |
| Delta.StitchIsRightIffFilesAreTrue | internal/transfer/stitch.go:93-121 | whatever the cached files hold, the rebuilt tarball loads as the original if and only if each owned digest's file has its true content |
| Delta.RepeatedLayerLosesAPath | internal/transfer/stitch.go:48-51 | an owned layer stored under two paths is not restored under the first |
| Delta.RoundTripIsPermutation | internal/transfer/stitch.go:14-34 | without repeated names and digests the rebuilt entries are a permutation of the original ones |
| Receiver.MinimalImageIsWellFormed | internal/transfer/testhelpers_test.go:15-60 | a two-layer image shaped like the repository's sample meets every assumption, with any names and decoders |
| Receiver.PartitionLayers | internal/transfer/receiver.go:235-244 | missing and owned are the unknown and known digests in offered order |
| Receiver.PartitionIsSplit | internal/transfer/receiver.go:235-244 | with a coherent receiver the two lists cover the digests and the owned ones are truly cached |
| Receiver.UpdateCacheAndLedger | internal/transfer/receiver.go:344-361 | nothing missing or an unusable manifest changes neither store; a failed write ends the scan and marks nothing; otherwise the missing digests are marked |
| Receiver.RebuiltLayersAre | internal/transfer/stitch.go:83-121 | every entry of the rebuilt tarball under a layer path has the true content |
| Receiver.ExtractLosesNothing | internal/transfer/cache.go:42-90 | whatever else the cache holds, scanning true layers loses no true file and makes the scanned ones true |
| Receiver.ExtractMakesTrue | internal/transfer/cache.go:42-69 | after scanning a whole image every listed digest has a true file |
| Receiver.ScanIsCoherentIff | internal/transfer/cache.go:59-89 | for every behaviour of the disk the ledger stays coherent if and only if the first failed write does not stop inside a known layer |
| Receiver.CachingReadsMainLayers | internal/transfer/cache.go:30-37 | caching succeeds if and only if the main item is item 0, and then maps the layers stitching used |
| Receiver.UpdateLearns | internal/transfer/receiver.go:344-361 | for every behaviour of the disk: caching leaves coherent stores unless it tears a known layer, and teaches the missing digests exactly when every write succeeds |
| Receiver.LearnsIffMainItemIsFirst | internal/transfer/receiver.go:156-192 | after a receive all layers are known if and only if none was missing, or the main item comes first and every cached file is written; when the stores stay coherent, and that with another main item they stay as they were |
| Receiver.SecondItemTeachesNothing | internal/transfer/cache.go:30-37 | an image with a shorter manifest item first is well-formed and delivered to any coherent receiver, and both stores stay as they were |
| Receiver.ReceivedIsPermutation | internal/transfer/receiver.go:156-192 | without repeated names and digests, what a coherent receiver rebuilds is a permutation of the entries sent |
| Receiver.KnownImageShipsNoLayers | internal/transfer/receiver.go:235-244 | an image of known layers negotiates nothing, ships exactly its other entries and is rebuilt in full |
| Receiver.UnreadableDigestsAreFatal | internal/transfer/sender.go:71-75 | without readable digests every pruning fails |
| Receiver.PushAndReceive | internal/transfer/receiver.go:132-201 | the phases in their order have the effect of `Push`; a failure leaves layers and files alone and is recorded as a commit unless a digest was invalid |
| Receiver.PushDelivers | internal/transfer/sender.go:19-62 | a push succeeds exactly for valid digests, delivers the image's files, and leaves the stores as the previous rows say, for any coherent receiver and every behaviour of the disk |
| Receiver.UnreadablePushFails | internal/transfer/sender.go:71-75 | a push whose digests cannot be read fails with the manifest's error, or with a length mismatch |
| Receiver.InvalidPushFails | internal/transfer/receiver.go:132-138 | a push reports the first invalid digest, whatever image and receiver are |
| Coherence.SplittingStaysSound | internal/transfer/receiver.go:235-244 | a negotiation that interleaves with others, lookup by lookup, still gives a split |
| Coherence.RebuildingStaysSound | internal/transfer/receiver.go:311-323 | stitching of a sound transfer finds every file and rebuilds the image |
| Coherence.CompletingStaysSound | internal/transfer/cache.go:81-89 | completing an open file makes it true and takes nothing from any store or transfer |
| Coherence.MarkingStaysCoherent | internal/transfer/receiver.go:355-358 | digests are marked only when their files are true |
| Coherence.CleaningAndFailing | internal/ledger/database.go:201-235 | clearing the cache memory forgets all layers and keeps the files, clearing the history forgets none, and a receive whose caching fails still delivers its image |
| Coherence.SoundUnlessLost | internal/transfer/cache.go:72-90 | as long as no true file is lost a transfer keeps what it relies on, whatever other files hold |
| Coherence.TearKeepsInv | internal/transfer/cache.go:81-89 | bytes put in a file nobody relies on, or its true ones, break nothing |
| Coherence.StepTearsIff | internal/transfer/cache.go:72-90 | a step breaks the soundness of stores and transfers if and only if it leaves a file without its content while the ledger claims it, a split owns it or another scan has passed it |
| Coherence.CoherentIffNothingTorn | internal/transfer/receiver.go:156-192 | the strict form: over every interleaving, the stores and all transfers are sound at each point, also while files are being written, if and only if no step tears a relied file |
| Harm.StitchingHasFiles | internal/transfer/stitch.go:93-121 | stitching finds every file it needs and keeps manifest and layer paths, whatever the files hold |
| Harm.EveryRunHasFiles | internal/transfer/receiver.go:156-192 | in every run known, owned and scanned digests have a file, and no transfer is broken |
| Harm.StitchedIsRightIff | internal/transfer/receiver.go:311-323 | a transfer is rebuilt right if and only if each file it owns is true at that moment |
| Harm.ImagesRightIffStitchedFromTruth | internal/transfer/receiver.go:177-187 | over every run from coherent stores, whatever is rebuilt or delivered is right at each point if and only if no transfer is stitched from a torn file |
| Harm.WritingStaysHealthy | internal/transfer/cache.go:81-89 | a file may hold anything as long as somebody has it open |
| Harm.LeavingHealthyIff | internal/transfer/cache.go:88-89 | leaving an open file is harmless if and only if it is true, nobody relies on it, or another transfer is writing it |
| Harm.StepHarmsIff | internal/transfer/receiver.go:344-361 | a step keeps images right and relied files true or being written if and only if it neither leaves a torn relied file without a writer nor stitches a torn one |
| Harm.HealthyIffNoHarm | internal/transfer/receiver.go:156-192 | the same over every interleaving of receives, half-written files, failures and garbage collection, at each point, from any coherent stores |
| Harm.EveryRunIsCoherent | internal/transfer/receiver.go:344-361 | whenever no file is being written, a run without such a step has left ledger, cache and transfers sound |
| Harm.WholeWritesHarmNothing | internal/transfer/cache.go:81-89 | if each file is completed right after it is created, no step of any run does harm |
| Harm.NoTransferBreaks | internal/transfer/receiver.go:177-187 | in every run no transfer breaks and stitching never misses a file; without stitching from a torn file all images are right |
| Alone.SplitsUpTo | internal/transfer/receiver.go:235-244 | looking up digest by digest alone gives the two lists of the partition |
| Alone.CachesAlone | internal/transfer/receiver.go:344-361 | step by step from the rebuilt image to the end, a transfer that runs alone leaves the stores that caching in one go leaves |
| Alone.RunsAsPush | internal/transfer/receiver.go:132-201 | a request that runs alone delivers the image and leaves the stores of a successful push, in every state |
| Alone.PushTeaches | internal/transfer/receiver.go:344-361 | from any coherent stores, with any other transfers under way, some run of a request and its steps ends with every layer of the image known and the image delivered, if its main item comes first or nothing is missing |
| TornLayer.TornLayerIsShipped | internal/transfer/cache.go:72-90 | for every image with a missing layer and a known one that is not empty, whose main item comes first, there is a run of two pushes in which the disk fails once and the second image is rebuilt wrong |
| ProgressWriter.Writer.Pause | internal/transfer/progress.go:133-145 | new fields and signals of a pause, a no-op when paused or cancelled |
| ProgressWriter.Writer.Resume | internal/transfer/progress.go:148-174 | refused for another owner or after a cancel; otherwise owner cleared, token left, peer told |
| ProgressWriter.Writer.Cancel | internal/transfer/progress.go:177-192 | first cancel sets both tokens and tells the peer; later ones do nothing |
| ProgressWriter.Writer.NotifyPausedBy | internal/transfer/progress.go:195-200 | only the shown owner changes |
| ProgressWriter.Writer.NotifyResumed | internal/transfer/progress.go:203-208 | only the shown owner is cleared |
| ProgressWriter.PausedIffOwned | internal/transfer/progress.go:133-192 | over every call sequence of the sending side, paused and owned coincide |
| ProgressWriter.PauseHeldUntilOwnerResumes | internal/transfer/progress.go:148-174 | a pause ends, at some point of the calls, if and only if its owner resumes before any cancel |
| ProgressWriter.ResumeAcceptedIff | internal/transfer/progress.go:148-174 | after any calls a resume is accepted if and only if nobody cancelled and the owner is nobody or the requester; what both answers leave |
| ProgressWriter.CancelFreezesOwner | internal/transfer/progress.go:177-192 | after a cancel no call changes anything |
| ProgressWriter.NotifiedIsNotPaused | internal/transfer/progress.go:195-200 | on the receiving side a shown owner does not mean paused |
| WriteMachine.PausedOverrunIsBounded | internal/transfer/progress.go:56-70 | while paused, chunks written plus remaining budget never grow; the budget is at most two |
| WriteMachine.AtMostTwoChunksAfterPause | internal/transfer/progress.go:133-145 | between an effective pause and its end at most two chunks pass |
| WriteMachine.OnlyResumeOrCancelEndsPause | internal/transfer/progress.go:148-192 | a step ends a pause exactly if it is an accepted resume or a cancel |
| WriteMachine.TwoChunksCanPassAPause | internal/transfer/progress.go:61-70 | a reachable run in which two chunks pass |
| WriteMachine.AtMostOneChunkAfterCancel | internal/transfer/progress.go:56-70 | after a cancel at most one chunk passes, and cancelled stays |
| WriteMachine.CancelTokenEndsWriting | internal/transfer/progress.go:65-67 | a write that takes the cancel token writes nothing, nor does any later one |
| WriteMachine.OneChunkCanPassACancel | internal/transfer/progress.go:177-192 | a cancel leaves both tokens, and with the resume token a parked write still writes one chunk |
| WriteMachine.NoLostWakeUp | internal/transfer/progress.go:61-68 | in every run a write that cannot move is parked, really paused and not cancelled |
| WriteMachine.StuckWriteIsWoken | internal/transfer/progress.go:162-191 | the owner's resume or any cancel lets a parked write move |
| ControlProtocol.CancelReachesBothSides | internal/transfer/progress.go:177-192 | each side signals a cancel once and only if cancelled; with none in flight both sides agree |
| ControlProtocol.CancelIsFinal | internal/transfer/progress.go:177-180 | cancelled is absorbing on each side of every run |
| ControlProtocol.EveryRunSendsOwnMessages | internal/transfer/progress.go:118-130 | the sender only ever announces its own pauses and resumes, and cancels |
| ControlProtocol.DeliveriesRunOut | internal/transfer/sender.go:214-232 | after any run, deliveries in any order are at most as many as the load, so the exchange ends when the users stop |
| ControlProtocol.BackChannelSimulates | internal/transfer/sender.go:214-232 | pending bytes replayed on the sender give the receiver's pause; a sender's resume has no effect on it |
| ControlProtocol.CrossingPausesDisagree | internal/transfer/receiver.go:96-118 | with crossing pauses the receiver stays paused, unowned, when all is delivered |
| ControlProtocol.OtherBytesAreSkipped | internal/transfer/sender.go:214-232 | a byte that is no code changes nothing, wherever it comes in the stream |
| ControlProtocol.OtherNamesPauseForReal | internal/transfer/receiver.go:94-118 | a pause in any name but the sender's pauses the receiver until a resume in that name |
| PauseAgreement.SenderPausesAreShown | internal/transfer/receiver.go:95-113 | while only the sender's user pauses, the receiver shows the last message accepted; with none in flight both sides show the same owner if and only if that is the last one sent |
| PauseAgreement.ReplayEnds | internal/transfer/sender.go:214-232 | reading all pending bytes leaves a sender's own pause alone, and otherwise gives what the last byte says |
| PauseAgreement.DeliveriesKeepAgreement | internal/transfer/receiver.go:95-118 | agreement that does not depend on the order of delivery survives every delivery |
| PauseAgreement.WillAgreeIffSettles | internal/transfer/receiver.go:95-118 | every order of delivery ends in agreement if and only if the pending bytes and each message in flight say the same owner |
| PauseAgreement.Drain | internal/transfer/sender.go:214-232 | everything in flight can be delivered, and so that the sides disagree if they can |
| PauseAgreement.AgreementIffNoOverlap | internal/transfer/progress.go:133-174 | up to the first cancel, at each point of a run every order of delivery ends in agreement if and only if no user's call overlaps the other side's pause or a message in flight |
| PauseAgreement.SecondPauseIsStranded | internal/transfer/progress.go:133-174 | a receiver that pauses during a sender's pause it has heard of stays paused, unowned, after the sender resumes |
| PauseAgreement.OvertakenPauseIsShown | internal/transfer/progress.go:123-130 | a resume that overtakes its pause leaves the receiver showing a pause that has ended |
| ByteStream.ThrottledReader.constructor | internal/transfer/throttle.go:18-32 | no limiter without a rate, otherwise a burst of the smaller of rate and 32 KiB |
| ByteStream.ThrottledReader.Read | internal/transfer/throttle.go:34-50 | the next bytes of the source, as many as there are within length and burst; each byte asked for once; a failure exactly when the read or the limiter fails |
| ByteStream.PassageIsJust | internal/transfer/progress.go:56-68 | for all calls before and during a write: refused if cancelled at the check and only after a cancel, open if running, waiting only in a pause or before it has looked at a token, past a pause only by a token or a resume or cancel it hears of |
| ByteStream.WaitEndsAtFirstToken | internal/transfer/progress.go:63-67 | the select is left at its first look that finds a token, takes exactly one, the preferred one if there is a choice, and otherwise goes on waiting |
| ByteStream.CountingWriter.Wait | internal/transfer/progress.go:63-67 | the select takes a resume token, or is shut by a cancel token, or goes on waiting |
| ByteStream.CountingWriter.Write | internal/transfer/progress.go:56-89 | accepted bytes and their count behind the cancel check and the pause gate, with calls before each step; a cancelled write accepts nothing |
| ByteStream.Copy | internal/transfer/sender.go:234-255 | for every schedule a prefix of the source is accepted and counted, all of it when the copy ends; a running or ended copy has had no failing read or write; it hangs only in a pause or before its select has looked at a token, and without faults and cancels it ends or hangs so, whoever pauses |
| Approvals.ResponseChan.TrySend | internal/transfer/manager.go:80-85 | a full channel keeps its decision |
| Approvals.PendingApprovalStore.Store | internal/cli/repl.go:46-50 | the request joins at the end |
| Approvals.PendingApprovalStore.Load | internal/cli/repl.go:52-66 | the leading requests that have a decision in their channel are dropped, no other, and the next one is returned and stays |
| Approvals.PendingApprovalStore.Clear | internal/cli/repl.go:68-74 | the front request leaves |
| Approvals.SendDecision | internal/api/handlers/approval.go:34-48 | the first request without a decision in its channel leaves and gets the decision, those before it are dropped, and no other channel changes |
| Approvals.ApprovalRegistry.RegisterApproval | internal/transfer/manager.go:58-62 | the image now points to this receiver |
| Approvals.ApprovalRegistry.UnregisterApproval | internal/transfer/manager.go:65-69 | the image is forgotten |
| Approvals.ApprovalRegistry.CancelApproval | internal/transfer/manager.go:72-89 | the registered receiver is forgotten and sent a rejection unless it has a decision |
| ApprovalMachine.FirstDecisionCounts | internal/transfer/manager.go:79-85 | however handlers, polls and cancels interleave, a receiver takes the first decision that was sent |
| ApprovalMachine.ServedIsWaitingIffUndecided | internal/cli/repl.go:52-66 | the front request that is served is still waited for if and only if no decision was sent to it |
| ApprovalMachine.DeadRequestIsServed | internal/cli/repl.go:58-60 | a rejected request whose receiver has gone is served as open |
| ApprovalMachine.StepAbandonsIff | internal/api/handlers/approval.go:34-48 | a step abandons a request exactly if it clears it undecided and not loaded, and only the cancel of its image ends that |
| ApprovalMachine.LostIffClearedByMistake | internal/api/handlers/approval.go:34-48 | over every interleaving of handlers, polls and cancels a request is abandoned if and only if some handler clears it while nobody has loaded or decided it |
| ApprovalMachine.AbandonedForGood | internal/cli/repl.go:52-74 | an abandoned request never returns to the queue or a handler, nor is it decided, unless its image is cancelled |
| ApprovalMachine.NoRequestIsLost | internal/api/handlers/approval.go:34-40 | if each handler clears right after it loads, a stored request out of the queue was sent a decision or is with a handler, in every run |
| ApprovalMachine.CancelAndPollLoseARequest | internal/api/handlers/approval.go:13-40 | one handler, a cancel and a poll drop the second request undecided |
| ApprovalMachine.RacingHandlersLoseARequest | internal/api/handlers/approval.go:34-48 | two interleaved handlers drop the second request undecided |
| ApprovalMachine.DecisionReachesShownIff | internal/api/handlers/approval.go:13-40 | a handler loads the request a poll showed if and only if no handler cleared in between and no poll or load since, its own included, found a decision in the request's channel |
| ApprovalMachine.ApprovalReachesAnother | internal/api/handlers/approval.go:34-40 | a cancel between the poll and the click sends the approval to another image |
| ApprovalMachine.CancelReachesOnlyTheWaiting | internal/transfer/manager.go:65-89 | in every run a cancel by name reaches nobody or a receiver of that image that has not taken a decision, and a second cancel nobody |
| ApprovalMachine.LaterRegistrationIsCancelled | internal/transfer/manager.go:58-89 | a cancel by name reaches the receiver that registered the image last, and no earlier one |
| ApprovalMachine.CancelRejectsTheWaitingOne | internal/transfer/manager.go:72-89 | with distinct images a cancel rejects exactly the receiver waiting for the image, and it takes that |
| LoadAndTag.DecimalRoundTrip | internal/docker/import.go:73 | the rendered version number determines the number |
| LoadAndTag.VersionTagsDiffer | internal/docker/import.go:73 | different versions have different tags |
| LoadAndTag.RepoStripsTagsOnly | internal/docker/import.go:67-70 | a tag is stripped from the name, a registry port is not, and a name without either is kept |
| LoadAndTag.SearchEnds | internal/docker/import.go:72-82 | in any finite store, whichever inspections fail, the search stops at the least version not found |
| LoadAndTag.LoadAndTag | internal/docker/import.go:62-107 | the store after backup, load, retag and cleanup, for every combination of failing inspections, calls and lost replies |
| LoadAndTag.BackupIsAnotherName | internal/docker/import.go:73-99 | the backup tag is neither the name nor its temporary form |
| LoadAndTag.FirstBackupIsV1 | internal/docker/import.go:67-75 | the first backup of a name, with or without a tag, is the repository's `:v1` |
| LoadAndTag.BackupIsFreshIff | internal/docker/import.go:65-82 | before the load the old image has the least unused version tag if and only if its inspection and the tagging succeed and the search stops at a free version; when the older tags all stay |
| LoadAndTag.OlderBackupIsLost | internal/docker/import.go:74-75 | one failing inspection overwrites an older backup, whose image is left without a tag |
| LoadAndTag.OldImageKeptIffTagIsForeign | internal/docker/import.go:65-96 | once backed up, and whichever later calls fail, the old image keeps the backup tag exactly when nothing is loaded or the tarball does not carry that tag |
| LoadAndTag.NameMovesUnlessError | internal/docker/import.go:33-96 | whichever calls fail, the name is on the loaded image or as it was before; after an error it has moved exactly when the tarball was loaded under that name and the reply was lost |
| LoadAndTag.NameMovesDespiteError | internal/docker/import.go:33-57 | an unreadable reply reports an error for a load that moved the name |
| LoadAndTag.OtherTagsStay | internal/docker/import.go:62-107 | whichever calls and inspections fail, every tag but the name, the version the search stops at and the tarball's own is unchanged |
| LoadAndTag.ImagesAreKept | internal/docker/import.go:62-107 | images are only added, by a load that reached Docker |
| LoadAndTag.BackupTagIsTaken | internal/docker/import.go:72-96 | a tarball with the backup tag takes it, and an image known by the name alone is left without a tag |
| LoadAndTag.BackupPreservesImages | internal/docker/import.go:62-107 | for the two expected tags the store changes by the moved name and the version tag the search stops at only, plus the temporary tag if its removal fails |
| PeerRegistry.Peers.AddPeer | internal/network/peer_registry.go:35-61 | other names at the address leave; a known name keeps source and architecture |
| PeerRegistry.Peers.AddCustomPeer | internal/network/peer_registry.go:119-134 | other names at the address leave; the entry is replaced |
| PeerRegistry.Peers.RemovePeer | internal/network/peer_registry.go:97-102 | the name leaves both maps |
| PeerRegistry.Peers.ClearMDNSPeers | internal/network/peer_registry.go:105-115 | the deleting loop removes exactly the discovered peers |
| PeerRegistry.Peers.GetDetailedPeers | internal/network/peer_registry.go:160-180 | one node for each name, with the fallback where metadata is absent |
| PeerRegistry.EveryRunIsConsistent | internal/network/peer_registry.go:35-180 | over all operations the maps agree, addresses are unique and the fallback is never used |
| PeerRegistry.AddedIsListed | internal/network/peer_registry.go:35-61 | after any operations a peer that is seen is listed at its address with its fingerprint, a known one with its source and architecture; exactly the names at other addresses are listed as before |
| PeerRegistry.AddedCustomIsListed | internal/network/peer_registry.go:119-134 | the same of a peer added by hand, as unverified and with its source |
| PeerRegistry.OthersAreLeftAlone | internal/network/peer_registry.go:63-102 | a removed name is gone, a probed or checked one changes in that respect only, and all others stay as they were |
| PeerRegistry.StaysUntilMoved | internal/network/peer_registry.go:35-134 | a name stays at its address through all operations if and only if none moves it, takes its address, removes it or clears it |
| PeerRegistry.ClearKeepsExactlyTheOthers | internal/network/peer_registry.go:105-115 | in every run clearing keeps exactly the other peers, unchanged |
| PeerRegistry.SeenCustomPeerSurvivesClear | internal/network/peer_registry.go:51-61 | a peer added by hand and seen later still survives clearing |
| LineWriter.Writer.Write | internal/docker/crossbuild.go:17-38 | one call logs the complete lines of buffer and input and keeps the remainder |
| LineWriter.BreaksAreCrAndLf | internal/docker/crossbuild.go:23 | the breaks are carriage return and line feed |
| LineWriter.SplitAnywhere | internal/docker/crossbuild.go:21-36 | splitting a stream in two gives the same lines and remainder |
| LineWriter.PiecesDoNotMatter | internal/docker/crossbuild.go:17-38 | for every cutting into calls the log and buffer are those of the whole stream |
| LineWriter.LinesAreSegments | internal/docker/crossbuild.go:23-36 | lines are the non-empty segments between breaks, in order; the remainder is the last segment |
| LineWriter.EveryStreamCuts | internal/docker/crossbuild.go:23 | every stream has such a cut into segments |

## Left out

- Tar and JSON formats, SHA-256, TLS, sockets and the payload checksum: a verified payload is the one that was sent.
- Tar headers, symlink entries and `filepath.ToSlash` on Windows: entries are compared by name and content.
- Coherence.CoherentIffNothingTorn: does not derive the bytes of a half-written file from its writers; `PartWritten` may put any bytes there, which covers two transfers that write the same file.
- Coherence.RebuildingStaysSound: does not model a file that changes while it is being stitched, because stitching is one step.
- Storage.Ledger.RecordCommit: does not model listing, pruning and deleting history entries, which never touch the known layers.
- Digests.CacheDirInjective: does not model a file system that ignores case, where two spellings of one digest share a directory.
- Receiver.PushAndReceive: does not model the approval, the file names built from hashes and the temporary files; failures between its phases are steps of `Coherence`, and a failed commit always has the status `Failed`.
- Harm.EveryRunIsCoherent: does not cover images whose digests are wrong, because the code caches what such a sender claims.
- ControlProtocol.CancelReachesBothSides: does not model lost connections or the moments before a side is registered, when signals are dropped.
- ControlProtocol.BackChannelSimulates: does not cover runs in which the sender's user pauses, alone or not; there the agreement can fail, and `PauseAgreement` gives the exact conditions.
- Races inside one `Pause` or `Resume` call: each control call is one step.
- ByteStream.Copy: does not model speed, progress events and the limiter's waiting time.
- ByteStream.CountingWriter.Write: does not model calls while the underlying write runs; they are heard before the next check.
- ApprovalMachine.CancelRejectsTheWaitingOne: does not cover two receivers waiting for one image, because the manager keeps only the later one.
- LoadAndTag.LoadAndTag: does not model Docker's name normalisation (an implied `latest`) or several tags in one tarball.
- Auto-approval, and the map of running transfers by image and peer: they add only look-ups.
- PeerRegistry.EveryRunIsConsistent: does not model the network probes, whose results are the operations `Probe`, `Check` and `Remove`.
- Daemon lock, discovery, HTTP routing, settings, command line, updater and user interface.
