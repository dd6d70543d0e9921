# Emulated camera HAL: verified models

Dafny models of the concurrent and arithmetic cores of the emulator's camera HAL, with proofs.
`dafny verify dfyconfig.toml` checks everything.

| files | what they model |
|---|---|
| Hal3Pipeline, Hal3Results, Hal3Progress, Hal3Jpeg, Hal3Camera | the HAL3 capture pipeline: submitter, readout thread, JPEG compressor |
| Hal3Streams | HAL3 stream configuration and request validation |
| AutoExposure | the HAL3 fake auto-exposure |
| Hal2Ring, Hal2Pipeline, Hal2Camera, Hal2Witnesses | the HAL2 pipeline, its ring and its stream-in-use check |
| Hal2Control, Hal2ControlThread | the HAL2 3A control loop |
| DoubleBuffer, CameraThreads | double-buffered frame production and delivery |
| FrameLayout, Converters, FrameCopy, Checkerboard | frame layouts: writers, readers, the repacking copy, RGB conversion |
| Resolutions, ResolutionGrammar | the webcam resolution list |

How to read them:

- A protocol is a transition system over a value `State`. A step is what one thread does between
  two points where another thread can interfere. `Reachable` quantifies over every interleaving.
- Beside it a class has the fields the source updates, and one method per critical section. Its
  `Valid()` says that the abstract state is reachable. Each method is a step of the transition
  system, keeps `Valid()`, and promises in terms of the fields what was proved of every run.
- Loops over buffers and lists are methods with loops, proved against recursive functions.
- History (what was accepted, returned, delivered, drawn, slept) is part of the state so that
  statements about whole runs can be made; no step's guard looks at it.

Where the code does not do what a comment or the obvious reading says, the model follows the
code, and the result is stated both ways:

- HAL3 READY may hold before the last result is sent, and while a JPEG is outstanding
  (`ReadyAllReturnedIff`, `ReadyWithUnsentBuffer`, `ReadyWithJpegOutstanding`).
- HAL3 reserves the JPEG compressor for any BLOB output. Three things leave it reserved for good:
  a submission that fails after the reservation, a request whose BLOB buffers are all depth
  buffers, and a start that the compressor refuses (`WhenTheCompressorWedges`, `WedgedForever`).
  The comment "this shouldn't happen" at camera/EmulatedFakeCamera3.cpp:2541 is right exactly
  while no request has two JPEG buffers.
- A HAL3 stream with an implementation-defined format may become RGB_888, which the sanity check
  of the next call does not list (`AcceptedAgainUnless`, `StreamTable.ConfigureTwice`).
- A HAL3 request without settings takes the cached ones; if the call then fails, the cache stays
  empty and the next such request is refused (`StreamTable.ProcessRequest`, `RepeatRequest`).
- HAL2 waits for room before a capture but not before a reprocess request, which is dropped when
  the ring is full (`DroppedIff`, `ReprocessCanBeDropped`).
- A HAL2 stream that a failed request had looked up can never be released
  (`FailedRequestKeepsItsStreams`).
- The HAL2 comment "order of isStreamInUse calls matters" is made exact by
  `OnlyPipelineOrderIsSound`, for a compressor that accepts starts and for one that refuses them
  all, as the one in the repository does to HAL2. The comment "acquire in same order as
  threadLoop" in the readout thread's check is not quite right: the thread loop takes the two
  mutexes in both orders, the other way round where it takes a request off the ring.
- The HAL2 continuous autofocus rate, meant as once every five seconds, is a number far above one
  (`ContinuousScanAlwaysStarts`).
- A HAL2 request that takes the AE lock off while the control loop is between copying the AE state
  and writing it back is lost, and exposure stays LOCKED however many requests with the lock off
  follow (`LostExactly`, `LockedMeansLocked`, `UnlockCanBeLost`, `LostUnlockIsForGood`).
- The loops over pixels work in pairs and do not stop for an odd size: an odd width is walked and
  drawn as the next even one, which the planar formats have room for and the interleaved ones do
  not (`ReadsInsideIff`, `PictureFitsIff`), and for an odd height the planar chroma planes overlap
  (`OddHeightMixesChroma`).
- The rows of the checkerboard's cells are counted with a post-increment, so cells are one row
  higher than their size (`CellRows`), and the chroma of a block is that of its lower row.

## Model

| member | source | states |
|---|---|---|
| `Hal3Pipeline.StepKeeps` | camera/EmulatedFakeCamera3.cpp:2450-2696 | every step of submitter, readout thread and compressor keeps conservation, order and safety together |
| `Hal3Pipeline.RunKeeps` | camera/EmulatedQemuCamera3.cpp:1905-2136 | so does every interleaving of any length; the second HAL3 camera has the same steps |
| `Hal3Pipeline.BuffersAreConserved` | camera/EmulatedFakeCamera3.cpp:2490-2696 | in every reachable state the buffers lent by accepted requests are, as a multiset of (frame, buffer), exactly those returned, in the queue, in the request being read out and in the JPEG slot; none is returned twice; all are returned once nothing is in flight |
| `Hal3Pipeline.ReturnedUnderOwnFrame` | camera/EmulatedFakeCamera3.cpp:2629-2696 | a buffer comes back only under the frame number of an accepted request that lent it |
| `Hal3Pipeline.MetadataInSubmissionOrder` | camera/EmulatedFakeCamera3.cpp:2629-2650 | metadata results are a prefix of the accepted frames in submission order; what is missing is queued or being read out |
| `Hal3Pipeline.QueueBoundedAndReadyQuiet` | camera/EmulatedFakeCamera3.cpp:2407-2481 | the in-flight queue never exceeds kMaxQueueSize although room is checked in one critical section and used in another; READY implies an empty queue and an inactive readout thread |
| `Hal3Pipeline.JpegSlotNeverOverwritten` | camera/EmulatedFakeCamera3.cpp:2539-2563 | on every run from a state with a JPEG outstanding, the slot is unchanged or that JPEG has been returned in a result of its own since |
| `Hal3Pipeline.ReadyAllReturnedIff` | camera/EmulatedFakeCamera3.cpp:2634-2663 | in every reachable READY state, everything lent has been returned exactly when no JPEG is outstanding and readout holds no buffer of an unsent result |
| `Hal3Pipeline.ReadyWithUnsentBuffer` | camera/EmulatedFakeCamera3.cpp:2634-2650 | a run on which READY holds with a result unsent |
| `Hal3Pipeline.ReadyWithJpegOutstanding` | camera/EmulatedFakeCamera3.cpp:2666-2696 | and one on which READY holds with all results sent and a JPEG still being compressed |
| `Hal3Pipeline.ReturnedStatus` | camera/EmulatedFakeCamera3.cpp:2535-2576 | in every reachable state, a buffer in a metadata result has status OK exactly if it is no JPEG, whatever is outstanding, and a result without metadata holds one JPEG |
| `Hal3Results.ResultsMatchRequests` | camera/EmulatedFakeCamera3.cpp:2535-2650 | in every reachable state the n-th metadata result has the frame of the n-th accepted request and exactly its non-JPEG buffers, in their order |
| `Hal3Jpeg.SlotFreeAtEveryJpeg` | camera/EmulatedFakeCamera3.cpp:2539-2545 | while no request has two JPEG buffers, the "already processing a JPEG" branch is unreachable and the compressor is reserved at each JPEG |
| `Hal3Jpeg.SecondJpegFindsSlotTaken` | camera/EmulatedFakeCamera3.cpp:2539-2545 | and only then: any request with two or more JPEG buffers has a run that reaches that branch |
| `Hal3Jpeg.WhenTheCompressorWedges` | camera/fake-pipeline2/JpegCompressor.cpp:55-84 | the exact entry, for every step of every run: a reserved compressor is left reserved for nobody exactly when, with no other JPEG due, a submission that reserved it is abandoned or queued without a JPEG, or the last JPEG due does not start |
| `Hal3Jpeg.WedgesWithSingleJpegs` | camera/EmulatedFakeCamera3.cpp:1001-1043 | while no request has two JPEG buffers, that is simply one of the three events |
| `Hal3Jpeg.RefusedStartWedges` | camera/fake-pipeline2/JpegCompressor.cpp:77-83 | the third way, on a run with one accepted request with one JPEG buffer |
| `Hal3Jpeg.WedgedForever` | camera/fake-pipeline2/JpegCompressor.cpp:45-71 | from then on, on every run, the compressor stays reserved and no BLOB request is accepted |
| `Hal3Jpeg.DepthRequestWedgesIff` | camera/EmulatedFakeCamera3.cpp:937-939 | in any state, queueing a BLOB request without a JPEG wedges the compressor exactly when it is still reserved and no JPEG waits to use the reservation |
| `Hal3Jpeg.DepthRequestIsLastBlob` | camera/EmulatedFakeCamera3.cpp:937-939 | such a request is then the last BLOB request the camera ever accepts |
| `Hal3Jpeg.DepthRequestFindsItsReservation` | camera/EmulatedFakeCamera3.cpp:1001-1014 | while no request has two JPEG buffers, that is so for every such request |
| `Hal3Jpeg.SecondJpegTakesTheReservation` | camera/EmulatedFakeCamera3.cpp:2546-2563 | with two JPEG buffers in one request it need not be: a run on which the second JPEG starts on the other request's reservation |
| `Hal3Progress.DrainIsBounded` | camera/EmulatedFakeCamera3.cpp:2483-2663 | from any state the readout thread and the compressor take a bounded number of steps before they need a new request |
| `Hal3Progress.NeverStuck` | camera/EmulatedFakeCamera3.cpp:2483-2663 | with no submission open one of these steps can be taken until queue, readout and slot are empty |
| `Hal3Progress.EverythingComesBack` | camera/EmulatedFakeCamera3.cpp:2629-2696 | whatever order they take, where they can go no further every lent buffer has been returned and all metadata sent |
| `Hal3Progress.DrainRuns` | camera/EmulatedFakeCamera3.cpp:2483-2696 | and such a halt is reached from every reachable state without an open submission |
| `Hal3Camera.Camera3.BeginRequest` | camera/EmulatedFakeCamera3.cpp:859-863 | refused, or the Begin step of the pipeline, status ACTIVE |
| `Hal3Camera.Camera3.ReserveCompressor` | camera/EmulatedFakeCamera3.cpp:1001-1014 | the Prepare step, or the abandoned submission |
| `Hal3Camera.Camera3.WaitForReadout` | camera/EmulatedFakeCamera3.cpp:2462-2481 | the Admit step exactly when the queue has room |
| `Hal3Camera.Camera3.QueueCaptureRequest` | camera/EmulatedFakeCamera3.cpp:2450-2455 | the Enqueue step, and the queue is within kMaxQueueSize |
| `Hal3Camera.Camera3.IsIdle` | camera/EmulatedFakeCamera3.cpp:2457-2460 | true exactly for an empty queue and an inactive thread |
| `Hal3Camera.Camera3.TakeRequest` | camera/EmulatedFakeCamera3.cpp:2490-2513 | the Dequeue step exactly when a request is queued |
| `Hal3Camera.Camera3.AwaitSensor` | camera/EmulatedFakeCamera3.cpp:2515-2526 | the FrameArrived step, or no change on a timeout |
| `Hal3Camera.Camera3.HandleBuffer` | camera/EmulatedFakeCamera3.cpp:2535-2576 | the Handle step: one turn of the buffer loop: a JPEG that starts goes to the slot, every other buffer is finished with status OK exactly if it is no JPEG; an outstanding JPEG is not touched |
| `Hal3Camera.Camera3.MaybeGoIdle` | camera/EmulatedFakeCamera3.cpp:2636-2645 | the GoIdle step |
| `Hal3Camera.Camera3.SignalReadoutIdle` | camera/EmulatedFakeCamera3.cpp:2407-2415 | the three idle steps under the parent lock, and READY only with an empty queue and an inactive thread |
| `Hal3Camera.Camera3.SendResult` | camera/EmulatedFakeCamera3.cpp:2629-2663 | the Send step; every buffer of the result was lent under its frame, and metadata is in order |
| `Hal3Camera.Camera3.OnJpegDone` | camera/EmulatedFakeCamera3.cpp:2666-2696 | the FinishJpeg step; the buffer was lent under the frame it is returned under |
| `Hal3Camera.Camera3.ReleaseCompressor` | camera/fake-pipeline2/JpegCompressor.cpp:226-251 | the CleanUp step |
| `Hal3Camera.Camera3.ValidPromises` | camera/EmulatedFakeCamera3.cpp:2450-2696 | every method keeps the object reachable, so conservation, the queue bound, quiet READY and metadata order hold of its fields |
| `Hal3Streams.AcceptedAgainUnless` | camera/EmulatedFakeCamera3.cpp:302-374 | the check of an accepted list, as the configuration left it, passes exactly when no IMPLEMENTATION_DEFINED stream was turned into RGB_888 |
| `Hal3Streams.ZslOutputLosesItsFormat` | camera/EmulatedFakeCamera3.cpp:361-374 | the smallest failing list: one such output stream |
| `Hal3Streams.StreamTable.ConfigureTwice` | camera/EmulatedFakeCamera3.cpp:227-398 | two calls with the same list: after an accepted first, the second is accepted exactly when no stream lost its format that way |
| `Hal3Streams.ZslStreamIsRefusedAgain` | camera/EmulatedFakeCamera3.cpp:302-315 | the object refuses that list the second time |
| `Hal3Streams.AdoptedMembers` | camera/EmulatedFakeCamera3.cpp:331-346 | the adoption pass adds each new stream once and keeps the old ones in front |
| `Hal3Streams.KeptMembers` | camera/EmulatedFakeCamera3.cpp:380-390 | the reaping pass leaves exactly the listed streams, without duplicates |
| `Hal3Streams.StreamTable.CheckList` | camera/EmulatedFakeCamera3.cpp:251-316 | the sanity check passes exactly for supported, non-null streams with at most one input |
| `Hal3Streams.StreamTable.MarkDead` | camera/EmulatedFakeCamera3.cpp:322-326 | the first pass marks every stream dead |
| `Hal3Streams.StreamTable.Adopt` | camera/EmulatedFakeCamera3.cpp:331-375 | the second pass against the recursive specification, repeated entries included: each listed stream alive, with its buffer count, usage and format set once |
| `Hal3Streams.StreamTable.Reap` | camera/EmulatedFakeCamera3.cpp:380-390 | the erase loop against the recursive specification |
| `Hal3Streams.StreamTable.ConfigureStreams` | camera/EmulatedFakeCamera3.cpp:227-398 | a refused call changes nothing; an accepted one leaves exactly the listed streams, each with the usage of its type, with RGBA_8888, YCbCr_420_888 or RGB_888 for an implementation-defined format exactly by its texture and encoder usage, and otherwise unchanged; the input stream is the one of the list, and priv is set for exactly those of all streams ever seen |
| `Hal3Streams.ConfiguredIsFor` | camera/EmulatedFakeCamera3.cpp:347-374 | which usage and format a stream gets, case by case over the old description, and that size, kind, rotation and other usage stay |
| `Hal3Streams.IsAvailable` | camera/EmulatedFakeCamera3.cpp:302-315 | the search of the format list finds exactly the six supported formats |
| `Hal3Streams.StreamTable.ValidateRequest` | camera/EmulatedFakeCamera3.cpp:768-855 | passes exactly when the request is well formed and every buffer, the input included, is from a stream of the last accepted list |
| `Hal3Streams.StreamTable.ProcessRequest` | camera/EmulatedFakeCamera3.cpp:865-1066 | the cached settings: a request without settings takes them, the OK return puts settings back, and a call that fails in between has lost them |
| `Hal3Streams.StreamTable.RepeatRequest` | camera/EmulatedFakeCamera3.cpp:865-872 | so a request without settings passes again exactly if the one before it worked |
| `AutoExposure.TrackStep` | camera/EmulatedFakeCamera3.cpp:2043-2045 | one tracking step in single precision stays in range and takes off a fifth of the gap up to 7 ns |
| `AutoExposure.SinglePrecisionTracks` | camera/EmulatedFakeCamera3.cpp:2043-2045 | what the run lemmas assume of a tracking step holds for every rounding that IEEE single precision allows |
| `AutoExposure.CoarseRoundIsSinglePrecision` | camera/EmulatedFakeCamera3.cpp:86-86 | that assumption about rounding can be met |
| `AutoExposure.AutoExposureControl.ProcessRequest` | camera/EmulatedFakeCamera3.cpp:1911-1970 | process3A and doFakeAE on the fields against the step function |
| `AutoExposure.AutoExposureControl.DoFake` | camera/EmulatedFakeCamera3.cpp:1978-2095 | doFakeAE on the fields against the step function |
| `AutoExposure.RequestKeepsHealthy` | camera/EmulatedFakeCamera3.cpp:2050-2092 | every request keeps exposure and target in range and never meets an unexpected state |
| `AutoExposure.ExposureAlwaysInRange` | camera/EmulatedFakeCamera3.cpp:171-177 | on every run from connectCamera the exposure stays in 2.5 ms to 60 ms and the "unexpected AE state" branch is not taken |
| `AutoExposure.SearchShrinksGap` | camera/EmulatedFakeCamera3.cpp:2069-2079 | while SEARCHING, each request takes a fifth off the distance to the target; the search ends exactly when less than a tenth of the target is left, and with the counter at zero |
| `AutoExposure.SearchConverges` | camera/EmulatedFakeCamera3.cpp:2050-2092 | CONVERGED within 25 consecutive unlocked, trigger-free requests |
| `AutoExposure.PrecaptureTakesTwelve` | camera/EmulatedFakeCamera3.cpp:2022-2048 | PRECAPTURE for exactly 11 requests, ended by the 12th as LOCKED or CONVERGED by its own lock entry, less than a tenth below the scene's target |
| `AutoExposure.PrecaptureEndsIff` | camera/EmulatedFakeCamera3.cpp:2022-2048 | whatever came before, which request ends a precapture sequence and what every other one does |
| `AutoExposure.RefusedIff` | camera/EmulatedFakeCamera3.cpp:1911-2003 | exactly which requests are refused, and that a refusal leaves state and exposure alone |
| `AutoExposure.FacePriorityFollows` | camera/EmulatedFakeCamera3.cpp:1934-1960 | which requests set and clear face priority, the refused ones included |
| `AutoExposure.OffIsInactive` | camera/EmulatedFakeCamera3.cpp:1926-1935 | control off or exposure off gives INACTIVE at the same exposure, and the next plain request searches from there |
| `AutoExposure.LockHolds` | camera/EmulatedFakeCamera3.cpp:2080-2092 | along any locked requests outside precapture the state is LOCKED and exposure, target and counter stay; the first unlocked one gives CONVERGED at the same exposure |
| `AutoExposure.StableForAHundred` | camera/EmulatedFakeCamera3.cpp:2056-2068 | once converged, CONVERGED at the same exposure for exactly 100 plain requests; the 101st searches for a target of the scene, off by the random step |
| `Hal2Ring.HoldsOne` | camera/EmulatedFakeCamera2.cpp:1168-1170 | slots, head and tail stand for at most one queue |
| `Hal2Ring.PushHolds` | camera/EmulatedFakeCamera2.cpp:1182-1186 | writing the tail slot and moving the tail appends to the queue |
| `Hal2Ring.PopHolds` | camera/EmulatedFakeCamera2.cpp:1253-1258 | clearing the head slot and moving the head removes the oldest |
| `Hal2Ring.ReadoutQueue.ReadyForNextCapture` | camera/EmulatedFakeCamera2.cpp:1168-1170 | true exactly when fewer than three operations wait |
| `Hal2Ring.ReadoutQueue.SetNextOperation` | camera/EmulatedFakeCamera2.cpp:1172-1192 | appended, or dropped exactly when three wait |
| `Hal2Ring.ReadoutQueue.TakeNext` | camera/EmulatedFakeCamera2.cpp:1229-1261 | the oldest operation becomes current, or the thread goes inactive when there is none |
| `Hal2Ring.ReadoutQueue.FinishCurrent` | camera/EmulatedFakeCamera2.cpp:1403-1406 | the count goes down with the request |
| `Hal2Ring.ReadoutQueue.IsStreamInUse` | camera/EmulatedFakeCamera2.cpp:1194-1216 | true exactly when a queued operation or the current one carries the id |
| `Hal2Pipeline.IdsMoveForward` | camera/EmulatedFakeCamera2.cpp:929-952 | a step brings a stream id into the configure stage only by a lookup, into readout only from configure, into the compressor only from readout |
| `Hal2Pipeline.ReleaseStep` | camera/EmulatedFakeCamera2.cpp:2695-2708 | the stages asked so far stay clear of the stream, whatever the other threads do |
| `Hal2Pipeline.RunKeeps` | camera/EmulatedFakeCamera2.cpp:731-817 | every interleaving keeps the whole invariant |
| `Hal2Pipeline.RemovedStreamIsNowhere` | camera/EmulatedFakeCamera2.cpp:523-553 | when releaseStream removes a stream no stage has a buffer of it, although the stages are asked one lock at a time |
| `Hal2Pipeline.InFlightStreamsAreAllocated` | camera/EmulatedFakeCamera2.cpp:2715-2719 | on every run every output stream named in any stage is allocated, so no lookup of a stream in flight fails |
| `Hal2Pipeline.ReadoutIsFifo` | camera/EmulatedFakeCamera2.cpp:1172-1261 | taken plus waiting is everything queued, in order; at most three wait; the request count is the waiting ones plus the one in readout; an inactive thread has nothing to do |
| `Hal2Pipeline.CapturesAreNeverDropped` | camera/EmulatedFakeCamera2.cpp:802-813 | no run drops a capture |
| `Hal2Witnesses.OnlyPipelineOrderIsSound` | camera/EmulatedFakeCamera2.cpp:2695-2708 | of the six orders of asking the stages the one in the code is the only one under which no stream is removed while in use; with a compressor that refuses every start, exactly the three are that ask configure before readout |
| `Hal2Witnesses.DroppedIff` | camera/EmulatedFakeCamera2.cpp:1172-1181 | a request is dropped exactly when it is a reprocess request and three operations wait |
| `Hal2Witnesses.ReprocessCanBeDropped` | camera/EmulatedFakeCamera2.cpp:1039-1052 | and a run on which it happens, to a request from a reprocess stream to an allocated BLOB stream |
| `Hal2Camera.Camera2.WaitForReady` | camera/EmulatedFakeCamera2.cpp:1153-1166 | the ReadoutReady step exactly when there is room |
| `Hal2Camera.Camera2.HandToReadout` | camera/EmulatedFakeCamera2.cpp:929-952 | the Push step on the array ring; a capture is always queued |
| `Hal2Camera.Camera2.NextToReadOut` | camera/EmulatedFakeCamera2.cpp:1229-1261 | the TakeNext or GoInactive step on the array ring, in queueing order |
| `Hal2Camera.Camera2.StartCompression` | camera/EmulatedFakeCamera2.cpp:1393-1402 | the HandOver step |
| `Hal2Camera.Camera2.FinishReadout` | camera/EmulatedFakeCamera2.cpp:1405-1406 | the CountDown step; the count is the length of the ring |
| `Hal2Camera.Camera2.StageUses` | camera/EmulatedFakeCamera2.cpp:716-724 | one stage's answer, computed by its loop, is whether the stage has the id |
| `Hal2Camera.Camera2.AskStage` | camera/EmulatedFakeCamera2.cpp:2700-2707 | the CheckStage step |
| `Hal2Camera.Camera2.RemoveStream` | camera/EmulatedFakeCamera2.cpp:550-552 | the Remove step; no stage has the stream, it is no longer allocated and every other stream is |
| `Hal2Camera.Camera2.Advance` | camera/EmulatedFakeCamera2.cpp:731-946 | every other step of allocation, configure thread, readout thread and compressor; the streams looked up while fetching and sending are allocated |
| `Hal2Camera.Camera2.PlainStep` | camera/EmulatedFakeCamera2.cpp:731-946 | what each of those steps changes in each thread, and that it changes nothing else |
| `Hal2Pipeline.ReleasedStreamIsGone` | camera/EmulatedFakeCamera2.cpp:523-553 | after its removal, on every run without a new allocation of that id, the stream is not allocated and no stage uses it |
| `Hal2Pipeline.FailedRequestKeepsItsStreams` | camera/EmulatedFakeCamera2.cpp:716-724 | a stream in a request that failed stays allocated on every run: its release is refused for ever |
| `Hal2Control.SleepsFit` | camera/EmulatedFakeCamera2.cpp:1755-1826 | every sleep is positive, at most 100 ms and never longer than what is left of either scan |
| `Hal2Control.ScanLengths` | camera/EmulatedFakeCamera2.cpp:1724-1734 | in every reachable state the length drawn for a running scan lies in the range of its kind |
| `Hal2Control.FocusScanOutcome` | camera/EmulatedFakeCamera2.cpp:1922-1962 | which draw ends a scan in focus and which not, and when a passive scan ends locked |
| `Hal2Control.FocusTriggerOutcome` | camera/EmulatedFakeCamera2.cpp:1828-1900 | what a trigger does in every mode and every state that fits it |
| `Hal2Control.TriggerIsActedOn` | camera/EmulatedFakeCamera2.cpp:1785-1800 | the round that has copied a trigger acts on it, through the later parts of the same round |
| `Hal2Control.FocusLockIsHeld` | camera/EmulatedFakeCamera2.cpp:1846-1885 | in the continuous modes a lock is held on every run, triggers included, until a cancel or a mode change |
| `Hal2Control.FocusResetOutcome` | camera/EmulatedFakeCamera2.cpp:1785-1800 | what a cancel or a mode change leaves at the end of its round |
| `Hal2Control.ExposureStartOutcome` | camera/EmulatedFakeCamera2.cpp:1976-2024 | exactly when precapture and search start, and that a lock ends a search at once |
| `Hal2Control.ExposureTimeOutcome` | camera/EmulatedFakeCamera2.cpp:2026-2055 | how far the exposure time moves during a scan, where it ends, and that it stays otherwise |
| `Hal2Control.FocusScanEndsOnTime` | camera/EmulatedFakeCamera2.cpp:1922-1962 | an undisturbed focus scan ends in the round that finds its drawn time slept, and in no other |
| `Hal2Control.ExposureScanEndsOnTime` | camera/EmulatedFakeCamera2.cpp:2026-2055 | the same for exposure, locked or not, with the state it ends in |
| `Hal2Control.FocusScanCountsSleep` | camera/EmulatedFakeCamera2.cpp:1811-1826 | along any run during which a focus scan goes on, the time left shrinks by exactly the time slept and stays non-negative |
| `Hal2Control.ExposureScanCountsSleep` | camera/EmulatedFakeCamera2.cpp:1811-1826 | the same for an exposure scan |
| `Hal2Control.NoUnexpectedFocusState` | camera/EmulatedFakeCamera2.cpp:1828-1962 | the four "unexpected" error branches of the focus code are unreachable under every interleaving of requests and triggers |
| `Hal2Control.ContinuousScanAlwaysStarts` | camera/EmulatedFakeCamera2.cpp:1729-1730 | the start rate is far above one, so continuous modes start a scan at every opportunity |
| `Hal2Control.ExposureTimeHasFloor` | camera/EmulatedFakeCamera2.cpp:2044-2051 | the exposure time never falls below its minimum |
| `Hal2Control.LostExactly` | camera/EmulatedFakeCamera2.cpp:2026-2067 | for every step: LOCKED is reported with the lock off afterwards exactly when the step writes back a stale lock with no precapture under way, or it was so before and the step is no request that turns the lock on or control off |
| `Hal2Control.LockedMeansLocked` | camera/EmulatedFakeCamera2.cpp:1666-1672 | on every run LOCKED is reported only while the lock is on if and only if the loop never reaches its write-back with a stale lock |
| `Hal2Control.UnlockWhileSleepingIsSafe` | camera/EmulatedFakeCamera2.cpp:1810-1816 | which is so when the lock is only taken off while the loop sleeps |
| `Hal2Control.UnlockCanBeLost` | camera/EmulatedFakeCamera2.cpp:2058-2067 | a run on which an unlock between copy and write-back is overwritten |
| `Hal2Control.LostUnlockIsForGood` | camera/EmulatedFakeCamera2.cpp:1998-2055 | then exposure stays LOCKED through any number of requests with the lock off, until one turns the lock on or control off, or precapture is triggered |
| `Hal2ControlThread.ControlThread.ProcessRequest` | camera/EmulatedFakeCamera2.cpp:1605-1695 | the ProcessRequest step |
| `Hal2ControlThread.ControlThread.TriggerAction` | camera/EmulatedFakeCamera2.cpp:1697-1722 | the trigger steps; an unknown trigger changes nothing |
| `Hal2ControlThread.ControlThread.CopyShared` | camera/EmulatedFakeCamera2.cpp:1757-1784 | the TakeSnapshot step |
| `Hal2ControlThread.ControlThread.AfTriggered` | camera/EmulatedFakeCamera2.cpp:1828-1900 | processAfTrigger on the fields |
| `Hal2ControlThread.ControlThread.AfScanStarted` | camera/EmulatedFakeCamera2.cpp:1902-1920 | maybeStartAfScan on the fields |
| `Hal2ControlThread.ControlThread.AfScanUpdated` | camera/EmulatedFakeCamera2.cpp:1922-1962 | updateAfScan on the fields, with the sleep |
| `Hal2ControlThread.ControlThread.RunFocus` | camera/EmulatedFakeCamera2.cpp:1786-1800 | the FocusPart step; the state fits the mode it was computed for |
| `Hal2ControlThread.ControlThread.AeScanUpdated` | camera/EmulatedFakeCamera2.cpp:2026-2055 | updateAeScan on the fields, with the sleep and the exposure time |
| `Hal2ControlThread.ControlThread.RunExposure` | camera/EmulatedFakeCamera2.cpp:1802-1808 | the ExposurePart step; the sleep is positive and fits both scans; an unlock is lost exactly for a stale lock |
| `Hal2ControlThread.ControlThread.AfterSleep` | camera/EmulatedFakeCamera2.cpp:1818-1826 | the Wake step; what is left of a scan is its drawn time less the sleeps, and not negative |
| `DoubleBuffer.ProducerMovesForward` | camera/EmulatedCameraDevice.cpp:661-692 | no producer step touches what the camera thread reads under the mutex |
| `DoubleBuffer.StepKeeps` | camera/EmulatedCameraDevice.cpp:612-692 | every step of producer, camera thread and callers keeps the invariant, restarts included |
| `DoubleBuffer.BuffersStayApart` | camera/EmulatedCameraDevice.cpp:684-688 | in every reachable state primary and secondary are the two buffers, and distinct |
| `DoubleBuffer.LockedFrameStays` | camera/EmulatedCameraDevice.cpp:304-311 | on every continuation without an unlock the primary buffer, its contents and its time stay the same |
| `DoubleBuffer.PrimaryMovesOnlyInSwap` | camera/EmulatedCameraDevice.cpp:684-688 | the primary buffer moves in exactly one step, which the lock shuts out |
| `DoubleBuffer.DeliveriesAreWhole` | camera/EmulatedCameraDevice.cpp:223-250 | every frame delivered on any run is one whole frame of one drawing, byte for byte, with that drawing's time |
| `DoubleBuffer.DeliveryIsCurrent` | camera/EmulatedCameraDevice.cpp:512-535 | a frame handed over is the newest one of the producer running now |
| `DoubleBuffer.DeliveriesInOrder` | camera/EmulatedCameraDevice.cpp:612-659 | deliveries never go back, not even across a restart |
| `DoubleBuffer.StoppedShowsAtMostOneMore` | camera/WorkerThread.cpp:47-54 | a stopped producer shows at most the frame it was working on |
| `DoubleBuffer.OneBurstShowsOneFrame` | camera/WorkerThread.cpp:76-89 | a one-burst producer shows at most one frame |
| `CameraThreads.ProducerThread.WakeUp` | camera/EmulatedCameraDevice.cpp:667-674 | the Wake step |
| `CameraThreads.ProducerThread.DrawByte` | camera/EmulatedCameraDevice.cpp:676-678 | the DrawAt step, on the array that is secondary |
| `CameraThreads.ProducerThread.Produced` | camera/EmulatedCameraDevice.cpp:678-682 | the FinishDrawing or FailToDraw step |
| `CameraThreads.ProducerThread.TakeMutex` | camera/EmulatedCameraDevice.cpp:684-686 | the LockForSwap step |
| `CameraThreads.ProducerThread.SwapBufferPointers` | camera/EmulatedCameraDevice.cpp:687-687 | the SwapBuffers step; the primary array holds a whole frame |
| `CameraThreads.ProducerThread.SwapTimestamps` | camera/EmulatedCameraDevice.cpp:688-688 | the SwapStamps step; with its own time |
| `CameraThreads.ProducerThread.AnnounceFrame` | camera/EmulatedCameraDevice.cpp:690-690 | the Announce step |
| `CameraThreads.ProducerThread.ThreadLoopEnd` | camera/WorkerThread.cpp:76-89 | the LoopOrExit step; another round exactly when running and not one burst |
| `CameraThreads.ProducerThread.StopThread` | camera/WorkerThread.cpp:47-54 | only running changes |
| `CameraThreads.DeviceThread.constructor` | camera/EmulatedCameraDevice.cpp:537-548 | an initial state of the transition system |
| `CameraThreads.DeviceThread.RequestRestart` | camera/EmulatedCameraDevice.cpp:594-606 | the AskRestart step |
| `CameraThreads.DeviceThread.Poll` | camera/EmulatedCameraDevice.cpp:491-510 | the PollFrame step: one turn of the wait |
| `CameraThreads.DeviceThread.CheckRestartRequest` | camera/EmulatedCameraDevice.cpp:612-621 | the CheckRestart step |
| `CameraThreads.DeviceThread.StartNewProducer` | camera/EmulatedCameraDevice.cpp:628-655 | the ReplaceProducer step, with fresh buffers |
| `CameraThreads.DeviceThread.LockCurrentFrame` | camera/EmulatedCameraDevice.cpp:236-246 | the LockFrame step |
| `CameraThreads.DeviceThread.CopyOneByte` | camera/EmulatedCameraDevice.cpp:248-250 | the CopyByte step |
| `CameraThreads.DeviceThread.UnlockCurrentFrame` | camera/EmulatedCameraDevice.cpp:309-311 | the UnlockFrame step; the frame delivered is whole and none is older than one before it |
| `CameraThreads.DeviceThread.RoundOver` | camera/WorkerThread.cpp:76-89 | the NextRound step: back to waiting exactly if running and not one-burst, and otherwise the producer is stopped |
| `DoubleBuffer.OneBurstDoesOneRound` | camera/WorkerThread.cpp:76-89 | on every run from the end of a one-burst round the camera thread only leaves, and nothing more is delivered |
| `DoubleBuffer.AnotherRoundIff` | camera/WorkerThread.cpp:76-89 | the next round begins exactly if the camera runs and is not one-burst |
| `DoubleBuffer.RestartIsHonoured` | camera/EmulatedCameraDevice.cpp:612-659 | a restart found at the check stops the producer; on every run from there, until a new producer or a failure ends it, the camera joins for the size and burst asked for and delivers nothing |
| `DoubleBuffer.JoiningStep` | camera/EmulatedCameraDevice.cpp:612-659 | what ends a restart: a failure, or a running producer with a new id and the size and burst asked for, from which the camera waits for a first frame |
| `DoubleBuffer.ProducerGoesOn` | camera/EmulatedCameraDevice.cpp:661-692 | from every sleep, while the camera does not hold the mutex, a running producer of any frame size can show and announce one more frame by its own steps, and then sleeps again unless it is one-burst |
| `CameraThreads.DeviceThread.RunProducer` | camera/EmulatedCameraDevice.cpp:661-692 | any producer step as a step of the device; the frame being copied stays the same |
| `CameraThreads.DeviceThread.ValidPromises` | camera/EmulatedCameraDevice.cpp:612-692 | every method keeps the device reachable, so every frame delivered is whole and in order |
| `CameraThreads.DeviceThread.FinishDelivery` | camera/EmulatedCameraDevice.cpp:530-535 | the FinishRound step |
| `CameraThreads.DeviceThread.StopThread` | camera/WorkerThread.cpp:47-54 | the StopCamera step |
| `CameraThreads.DeviceThread.Exit` | camera/EmulatedCameraDevice.cpp:550-557 | the Leave step, or FailRestart when the device did not start again |
| `FrameLayout.AlignIsLeastMultiple` | camera/Alignment.h:8-10 | the masked 32-bit expression gives the least multiple of a power of two not below the argument, as long as the addition does not wrap |
| `FrameLayout.AlignIs16` | camera/Alignment.h:8-10 | for alignment 16 it is the function the layouts use |
| `FrameLayout.SamplesInBuffer` | camera/EmulatedCameraDevice.cpp:345-365 | for every size and format each luma and chroma sample is inside the frame buffer, luma before chroma |
| `FrameLayout.SamplesDisjoint` | camera/EmulatedFakeCameraDevice.cpp:142-173 | U and V never share a byte, and within a plane distinct samples have distinct bytes |
| `FrameLayout.LumaDistinct` | camera/EmulatedFakeCameraDevice.cpp:280-304 | distinct luma samples have distinct bytes |
| `FrameLayout.ReadersMatchDevices` | camera/Converters.cpp:108-130 | the plane starts, strides and steps of the converters equal those of the device for all four formats |
| `FrameLayout.DeviceBufferCovers` | camera/EmulatedCameraDevice.cpp:345-365 | for even sizes the converters read inside the device's buffer |
| `FrameLayout.ReadsInsideIff` | camera/Converters.cpp:108-200 | for every positive size the walk in pairs stays inside the device's buffer exactly when the format is planar or both dimensions are even |
| `Converters.GreyAxis` | camera/Converters.h:218-227 | neutral chroma gives greys, monotone in luma |
| `Converters.ChannelsFollow` | camera/Converters.h:192-194 | red does not depend on U and grows with V, blue does not depend on V and grows with U, green falls with both |
| `Converters.ReferenceColours` | camera/Converters.h:218-227 | black, white and the three primaries |
| `Converters.RedIsStandard` | camera/Converters.h:192-192 | on the whole studio range red is within 0.76, half of a step being rounding, of the clamped value of ITU-R BT.601 |
| `Converters.GreenIsStandard` | camera/Converters.h:193-193 | so is green |
| `Converters.BlueIsStandard` | camera/Converters.h:194-194 | and blue |
| `Converters.ImageAt` | camera/Converters.cpp:73-85 | pixel (x, y) of the picture is the conversion of luma (x, y) and chroma (x/2, y/2) |
| `Converters.ConvertRow` | camera/Converters.cpp:74-84 | the inner pointer walk sets one row, of odd width one pixel more, and nothing else |
| `Converters.YUV420SToRGB` | camera/Converters.cpp:59-86 | for any width the whole walk sets the picture of the width rounded up to even and nothing else, for any colour function and any layout the buffer covers |
| `Converters.PictureFitsIff` | camera/Converters.cpp:77-84 | which stays within width times height pixels exactly for even widths |
| `Converters.ConvertFrame` | camera/EmulatedCameraDevice.cpp:252-295 | the switch over the formats: the device's picture, or an error that changes nothing, for every size whose reads stay in the buffer |
| `FrameCopy.FastPathWidths` | camera/EmulatedCameraDevice.cpp:183-199 | Y is tight exactly for widths divisible by 16, U and V exactly by 32, so the UV fast path implies the Y one |
| `FrameCopy.PackedFits` | camera/EmulatedCameraDevice.h:286-295 | the packed frame never exceeds getVideoFrameBufferSize, and fills it for even sizes |
| `FrameCopy.CopyRows` | camera/EmulatedCameraDevice.cpp:187-193 | a slow path against the packed rows |
| `FrameCopy.CopyChroma` | camera/EmulatedCameraDevice.cpp:196-214 | both chroma paths give the packed U and V planes |
| `FrameCopy.Repack` | camera/EmulatedCameraDevice.cpp:179-215 | for every size and mix of paths the output is the packed Y, U, V planes, and no other byte is written |
| `FrameCopy.GetCurrentFrame` | camera/EmulatedCameraDevice.cpp:173-221 | a copy, the packed planes, or EINVAL with nothing written |
| `FrameCopy.PackedSamples` | camera/EmulatedCameraDevice.cpp:179-215 | sample by sample the packed frame holds what the strided one does, U and V exchanged, for every size |
| `FrameCopy.RepackingKeepsThePicture` | camera/Converters.cpp:108-130 | for width divisible by 32 and even height, reading the packed copy as YU12 gives the picture that reading the original as YV12 gives |
| `FrameCopy.PackedReadableIff` | camera/Converters.cpp:120-130 | the width condition is exact: for any other even width the YU12 reader looks past the end |
| `Checkerboard.RowsAt` | camera/EmulatedFakeCameraDevice.cpp:280-304 | the byte a stroke leaves is the colour of the last stroke that touches it |
| `Checkerboard.DrawnPixel` | camera/EmulatedFakeCameraDevice.cpp:280-304 | a drawn pixel as read back has the luma painted for its own row and the chroma painted for the lower row of its 2 by 2 block, in every format |
| `Checkerboard.DrawnPicture` | camera/Converters.cpp:108-130 | so has the converted picture, for every even height and, in the planar formats, every width |
| `Checkerboard.OddHeightMixesChroma` | camera/EmulatedFakeCameraDevice.cpp:283-293 | for odd heights above one of the planar formats (of even width, to which an odd one rounds) it has not: the last row's chroma falls on the first row of the other plane |
| `Checkerboard.CellColour` | camera/EmulatedFakeCameraDevice.cpp:280-304 | the colour of any pair of pixels in closed form, from its place and the starting counters |
| `Checkerboard.BoardPicture` | camera/EmulatedFakeCameraDevice.cpp:280-304 | pixel (x, y) of the converted board from x, y and the starting counters alone |
| `Checkerboard.NeutralBoardIsGrey` | camera/Converters.h:218-227 | which is a grey for neutral colours |
| `Checkerboard.CellRows` | camera/EmulatedFakeCameraDevice.cpp:300-303 | cells are size + 1 rows high: the row counter's closed form |
| `Checkerboard.CellColumns` | camera/EmulatedFakeCameraDevice.cpp:294-298 | after the first, cut off cell, cells are half of size, rounded up, pairs wide |
| `Checkerboard.DrawBoardRow` | camera/EmulatedFakeCameraDevice.cpp:281-299 | one row of the loop against the drawing specification |
| `Checkerboard.DrawCheckerboard` | camera/EmulatedFakeCameraDevice.cpp:242-304 | the frame in place against the drawing specification, for every size at which the loops stay in the buffer; nothing is drawn when the cell size is zero |
| `Resolutions.IntReadBack` | camera/EmulatedQemuCamera.cpp:86-86 | reading a printed number gives it back, up to the first non-digit |
| `Resolutions.SizeReadBack` | camera/EmulatedQemuCamera.cpp:86-88 | a printed entry is scanned as itself |
| `Resolutions.ParsePrint` | camera/EmulatedQemuCamera.cpp:130-137 | parsing a printed list gives the list back |
| `Resolutions.LargestIs` | camera/EmulatedQemuCamera.cpp:102-112 | the scan finds the first entry of maximal area, or what it started from |
| `Resolutions.FittingKeeps` | camera/EmulatedQemuCamera.cpp:115-122 | each entry that fits is kept as often as it occurs and no other |
| `Resolutions.FittingJoin` | camera/EmulatedQemuCamera.cpp:115-122 | filtering goes through concatenation, so order is kept |
| `Resolutions.SensorIsKept` | camera/EmulatedQemuCamera.cpp:102-122 | when some area is positive, an entry of maximal area is kept |
| `Resolutions.FilterAgain` | camera/EmulatedQemuCamera.cpp:102-122 | filtering twice is filtering once |
| `Resolutions.RoundTrip` | camera/EmulatedQemuCamera.cpp:75-137 | printing the filtered list, parsing and filtering again changes nothing |
| `Resolutions.ParseDims` | camera/EmulatedQemuCamera.cpp:77-90 | the getline and sscanf loop against the recursive parser |
| `Resolutions.FindSensorSize` | camera/EmulatedQemuCamera.cpp:102-112 | the scanning loop against its specification |
| `Resolutions.RemoveLarger` | camera/EmulatedQemuCamera.cpp:115-122 | the erase loop against the recursive filter |
| `Resolutions.PrintSizes` | camera/EmulatedQemuCamera.cpp:130-137 | the printing loop against its specification |
| `Resolutions.Initialize` | camera/EmulatedQemuCamera.cpp:75-137 | an error exactly when nothing is left; otherwise a text that parses to the filtered list |
| `Resolutions.QemuCamera3.ParseResolutions` | camera/EmulatedQemuCamera3.cpp:114-176 | the same into fields, with the length limit, whatever the sensor fields held before |
| `ResolutionGrammar.EntryAcceptedIff` | camera/EmulatedQemuCamera.cpp:83-89 | an entry is accepted, as the size it spells, exactly if it is two numbers around an x with nothing after them; a number is white space, an optional sign and digits |
| `ResolutionGrammar.LinesJoin` | camera/EmulatedQemuCamera.cpp:77-79 | the lines joined with commas are the text, up to one comma at its end, and no line holds a comma |
| `ResolutionGrammar.EntriesInOrder` | camera/EmulatedQemuCamera.cpp:79-90 | the accepted lines give one size each, in their order, and no other line gives one |
| `ResolutionGrammar.EntriesAre` | camera/EmulatedQemuCamera.cpp:79-90 | a size is kept exactly if some line spells it |

## Left out

- Audio HAL, GNSS, static metadata tables, default requests, QemuClient, hotplug, factory: listings or I/O without a hard property.
- Sensor, gralloc, fences, condition variables: nondeterministic outcomes and wakes. Spurious wakes of the HAL3 dequeue are not modelled, and mThreadActive, which no constructor sets, is taken to start false.
- JPEG internals, EXIF, thumbnails: the compressor is an environment that accepts or refuses a start and finishes each accepted one once. The HAL2 code never calls reserve(), so with the compressor in the repository every HAL2 start is refused; the model allows both.
- HAL3 error returns before OK: which gralloc buffers stay locked is not modelled; conservation starts at an OK return.
- HAL2 stream labels: the buffer's id is taken from the request's 32-bit entry; the code reads the label from the bytes of that entry.
- HAL2 reprocess streams: their table is not modelled; the code's in-use check for them is a stub that answers no.
- HAL2 stream formats and counts: an operation says whether one of its buffers is a BLOB; which one it is, is a nondeterministic choice at each send.
- Deadlock freedom of HAL2: not claimed; it takes its mutexes in inverted orders. Progress of HAL3 is shown for the readout thread and the compressor, with the sensor delivering its frames.
- Two JPEG buffers in one HAL3 request: the code hands the sensor buffers over with the first and starts the second without any; what the compressor then does is not modelled.
- Close, flush and teardown paths; AF and AWB of the HAL3 cameras; sensitivity.
- DoubleBuffer: the camera thread is the only reader. A caller on another thread that asks before the first frame, or during a restart, is outside the model. A frame is modelled as drawn byte by byte in any order; a device that draws nothing into frames under ten pixels hands on what the buffer held.
- Frame rates and sleeps of the producer: its waits may end at any time.
- EmulatedFakeRotatingCameraDevice, the bouncing square, white balance and exposure scaling: floating point scene code.
- Odd sizes of the interleaved formats: the loops run past the frame buffer there (ReadsInsideIff), so converting and drawing ask for sizes at which they stay inside.
- RGB565 entry points: the walk is covered by YUV420SToRGB, their plane order is not (YV12ToRGB565 reads U first, unlike YV12ToRGB32).
- Hal2Control: random numbers are reals in [0, 1], and double rounding is not modelled.
- Resolutions: numbers and areas are unbounded; 32-bit overflow of an area, and of a number in the text, is not modelled.
- FrameLayout: sizes are unbounded except in AlignIsLeastMultiple and AlignIs16, which state when the 32-bit addition does not wrap.
