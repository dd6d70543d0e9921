/**
 The HAL3 capture pipeline as a transition system.

 Three threads share the state: the submitter (processCaptureRequest, under the parent
 lock), the readout thread and the JPEG compressor thread. One step is one critical
 section, or one access to data that a thread shares with nobody. The parent lock is held
 by the submitter while a submission is open and by the readout thread while it is
 deciding whether the camera has gone idle.

 EmulatedQemuCamera3 has the same pipeline, step for step.
 */
module Hal3Pipeline {

  const MAX_QUEUE_SIZE := 2

  // Jpeg is a BLOB stream outside the depth data space; DepthBlob is a BLOB stream inside it.
  datatype BufferKind = Image | Jpeg | DepthBlob

  datatype Buffer = Buffer(handle: nat, kind: BufferKind)

  datatype Request = Request(frame: nat, buffers: seq<Buffer>)

  // A buffer that has been given its final status.
  datatype Finished = Finished(buffer: Buffer, ok: bool)

  // What is sent to the framework. A metadata result closes a request; a JPEG buffer
  // follows later in a result of its own.
  datatype Result = Result(frame: nat, hasMetadata: bool, buffers: seq<Finished>)

  datatype Status = Error | Closed | Open | Ready | Active

  datatype Submission =
    | NoSubmission
    | Started(request: Request)      // validated, status set to Active
    | Prepared(request: Request)     // compressor reserved if the request needs it
    | Admitted(request: Request)     // the queue was seen to have room

  // The request being read out: its buffer vector split at the iterator.
  datatype Current = Current(frame: nat, finished: seq<Finished>, todo: seq<Buffer>)

  datatype Readout =
    | Waiting
    | AwaitingFrame(current: Current)
    | Handling(current: Current)
    | SignalIdle(current: Current)                  // wants the parent lock
    | IdleLocked(current: Current)                  // holds the parent lock
    | IdleChecked(current: Current, idle: bool)     // holds the parent lock
    | Sending(current: Current)

  datatype Slot = NoJpeg | JpegWaiting(frame: nat, buffer: Buffer)

  // Idle is mIsBusy == false; the other three are busy.
  datatype Compressor = Idle | Reserved | Compressing | Finishing

  datatype State = State(
    status: Status,
    submission: Submission,
    queue: seq<Request>,
    threadActive: bool,
    readout: Readout,
    slot: Slot,
    compressor: Compressor,
    accepted: seq<Request>,   // every request whose submission returned OK, in order
    returned: seq<Result>)    // everything sent to the framework, in order

  predicate NeedsCompressor(r: Request) {
    exists i :: 0 <= i < |r.buffers| && r.buffers[i].kind != Image
  }

  predicate ParentLockFree(s: State) {
    s.submission.NoSubmission? && !s.readout.IdleLocked? && !s.readout.IdleChecked?
  }

  // ----- Submitter -----

  predicate CanBegin(s: State, r: Request) {
    ParentLockFree(s) && (s.status == Ready || s.status == Active) && r.buffers != []
  }

  function Begin(s: State, r: Request): State {
    s.(status := Active, submission := Started(r))
  }

  predicate CanPrepare(s: State) {
    s.submission.Started? && (NeedsCompressor(s.submission.request) ==> s.compressor == Idle)
  }

  function Prepare(s: State): State
    requires s.submission.Started?
  {
    s.(submission := Prepared(s.submission.request),
       compressor := if NeedsCompressor(s.submission.request) then Reserved else s.compressor)
  }

  predicate CanAdmit(s: State) {
    s.submission.Prepared? && |s.queue| < MAX_QUEUE_SIZE
  }

  function Admit(s: State): State
    requires s.submission.Prepared?
  {
    s.(submission := Admitted(s.submission.request))
  }

  function Enqueue(s: State): State
    requires s.submission.Admitted?
  {
    var r := s.submission.request;
    s.(submission := NoSubmission, queue := s.queue + [r], accepted := s.accepted + [r])
  }

  // Any error return: the lock is released and nothing else is undone.
  function Abandon(s: State): State {
    s.(submission := NoSubmission)
  }

  // ----- Readout thread -----

  predicate CanDequeue(s: State) {
    s.readout.Waiting? && s.queue != []
  }

  function Dequeue(s: State): State
    requires s.queue != []
  {
    s.(readout := AwaitingFrame(Current(s.queue[0].frame, [], s.queue[0].buffers)),
       queue := s.queue[1..],
       threadActive := true)
  }

  function FrameArrived(s: State): State
    requires s.readout.AwaitingFrame?
  {
    s.(readout := Handling(s.readout.current))
  }

  predicate CanHandle(s: State) {
    s.readout.Handling? && s.readout.current.todo != []
  }

  // One turn of the buffer loop. starts is the compressor's answer; it can only be yes
  // when the compressor is reserved and not running.
  function Handle(s: State, starts: bool): State
    requires CanHandle(s)
  {
    var c := s.readout.current;
    var b := c.todo[0];
    if b.kind == Jpeg && s.slot.NoJpeg? && s.compressor == Reserved && starts then
      s.(readout := Handling(c.(todo := c.todo[1..])),
         slot := JpegWaiting(c.frame, b),
         compressor := Compressing)
    else
      s.(readout := Handling(c.(todo := c.todo[1..],
                                finished := c.finished + [Finished(b, b.kind != Jpeg)])))
  }

  predicate CanGoIdle(s: State) {
    s.readout.Handling? && s.readout.current.todo == []
  }

  function GoIdle(s: State): State
    requires s.readout.Handling?
  {
    if s.queue == [] then
      s.(threadActive := false, readout := SignalIdle(s.readout.current))
    else
      s.(readout := Sending(s.readout.current))
  }

  predicate CanLockForIdle(s: State) {
    s.readout.SignalIdle? && ParentLockFree(s)
  }

  function LockForIdle(s: State): State
    requires s.readout.SignalIdle?
  {
    s.(readout := IdleLocked(s.readout.current))
  }

  function CheckIdle(s: State): State
    requires s.readout.IdleLocked?
  {
    s.(readout := IdleChecked(s.readout.current,
                              s.status == Active && s.queue == [] && !s.threadActive))
  }

  function SettleIdle(s: State): State
    requires s.readout.IdleChecked?
  {
    s.(status := if s.readout.idle then Ready else s.status,
       readout := Sending(s.readout.current))
  }

  function Send(s: State): State
    requires s.readout.Sending?
  {
    var c := s.readout.current;
    s.(readout := Waiting, returned := s.returned + [Result(c.frame, true, c.finished)])
  }

  // ----- JPEG compressor thread -----

  predicate CanFinishJpeg(s: State) {
    s.compressor == Compressing && s.slot.JpegWaiting?
  }

  function FinishJpeg(s: State, success: bool): State
    requires s.slot.JpegWaiting?
  {
    s.(slot := NoJpeg,
       compressor := Finishing,
       returned := s.returned
                   + [Result(s.slot.frame, false, [Finished(s.slot.buffer, success)])])
  }

  function CleanUp(s: State): State {
    s.(compressor := Idle)
  }

  // ----- Runs -----

  datatype Action =
    | DoBegin(r: Request) | DoPrepare | DoAdmit | DoEnqueue | DoAbandon
    | DoDequeue | DoFrame | DoHandle(starts: bool) | DoGoIdle
    | DoLockForIdle | DoCheckIdle | DoSettleIdle | DoSend
    | DoFinishJpeg(success: bool) | DoCleanUp

  predicate Enabled(s: State, a: Action) {
    match a
    case DoBegin(r) => CanBegin(s, r)
    case DoPrepare => CanPrepare(s)
    case DoAdmit => CanAdmit(s)
    case DoEnqueue => s.submission.Admitted?
    case DoAbandon => !s.submission.NoSubmission?
    case DoDequeue => CanDequeue(s)
    case DoFrame => s.readout.AwaitingFrame?
    case DoHandle(_) => CanHandle(s)
    case DoGoIdle => CanGoIdle(s)
    case DoLockForIdle => CanLockForIdle(s)
    case DoCheckIdle => s.readout.IdleLocked?
    case DoSettleIdle => s.readout.IdleChecked?
    case DoSend => s.readout.Sending?
    case DoFinishJpeg(_) => CanFinishJpeg(s)
    case DoCleanUp => s.compressor == Finishing
  }

  function Apply(s: State, a: Action): State
    requires Enabled(s, a)
  {
    match a
    case DoBegin(r) => Begin(s, r)
    case DoPrepare => Prepare(s)
    case DoAdmit => Admit(s)
    case DoEnqueue => Enqueue(s)
    case DoAbandon => Abandon(s)
    case DoDequeue => Dequeue(s)
    case DoFrame => FrameArrived(s)
    case DoHandle(starts) => Handle(s, starts)
    case DoGoIdle => GoIdle(s)
    case DoLockForIdle => LockForIdle(s)
    case DoCheckIdle => CheckIdle(s)
    case DoSettleIdle => SettleIdle(s)
    case DoSend => Send(s)
    case DoFinishJpeg(success) => FinishJpeg(s, success)
    case DoCleanUp => CleanUp(s)
  }

  // A freshly initialised camera.
  const Initial := State(Ready, NoSubmission, [], false, Waiting, NoJpeg, Idle, [], [])

  // s' follows from s by the given interleaving.
  predicate Run(s: State, actions: seq<Action>, s': State)
    decreases |actions|
  {
    if actions == [] then s == s'
    else Enabled(s, actions[0]) && Run(Apply(s, actions[0]), actions[1..], s')
  }

  // ----- Who owns which buffer -----

  // A buffer as lent by one request: the frame number travels with it.
  type Loan = (nat, Buffer)

  ghost function Lent(frame: nat, buffers: seq<Buffer>): multiset<Loan> {
    if buffers == [] then multiset{} else multiset{(frame, buffers[0])} + Lent(frame, buffers[1..])
  }

  ghost function LentBy(requests: seq<Request>): multiset<Loan> {
    if requests == [] then multiset{}
    else Lent(requests[0].frame, requests[0].buffers) + LentBy(requests[1..])
  }

  ghost function Done(frame: nat, finished: seq<Finished>): multiset<Loan> {
    if finished == [] then multiset{}
    else Done(frame, finished[..|finished| - 1]) + multiset{(frame, finished[|finished| - 1].buffer)}
  }

  ghost function Returned(results: seq<Result>): multiset<Loan> {
    if results == [] then multiset{}
    else
      var last := results[|results| - 1];
      Returned(results[..|results| - 1]) + Done(last.frame, last.buffers)
  }

  ghost function InReadout(r: Readout): multiset<Loan> {
    if r.Waiting? then multiset{}
    else Done(r.current.frame, r.current.finished) + Lent(r.current.frame, r.current.todo)
  }

  ghost function InSlot(slot: Slot): multiset<Loan> {
    if slot.NoJpeg? then multiset{} else multiset{(slot.frame, slot.buffer)}
  }

  ghost predicate Conserved(s: State) {
    LentBy(s.accepted) == Returned(s.returned) + InReadout(s.readout) + LentBy(s.queue) + InSlot(s.slot)
  }

  ghost function Frames(requests: seq<Request>): seq<nat> {
    seq(|requests|, i requires 0 <= i < |requests| => requests[i].frame)
  }

  // Frame numbers of the metadata results, in the order they were sent.
  ghost function MetadataFrames(results: seq<Result>): seq<nat> {
    if results == [] then []
    else
      var last := results[|results| - 1];
      MetadataFrames(results[..|results| - 1]) + (if last.hasMetadata then [last.frame] else [])
  }

  ghost function FrameInReadout(r: Readout): seq<nat> {
    if r.Waiting? then [] else [r.current.frame]
  }

  ghost predicate InOrder(s: State) {
    Frames(s.accepted) == MetadataFrames(s.returned) + FrameInReadout(s.readout) + Frames(s.queue)
  }

  // The queue is bounded although room is checked and used in different critical sections.
  predicate Bounded(s: State) {
    |s.queue| <= MAX_QUEUE_SIZE && (s.submission.Admitted? ==> |s.queue| < MAX_QUEUE_SIZE)
  }

  predicate Quiet(s: State) {
    s.queue == [] && !s.threadActive
  }

  predicate ReadyIsQuiet(s: State) {
    && (s.status == Ready ==> Quiet(s))
    && (!s.submission.NoSubmission? ==> s.status == Active && !s.readout.IdleLocked? && !s.readout.IdleChecked?)
    && (s.readout.IdleChecked? && s.readout.idle ==> Quiet(s))
  }

  predicate SlotMatchesCompressor(s: State) {
    s.slot.JpegWaiting? <==> s.compressor == Compressing
  }

  // Once the buffer loop has ended no buffer is left for it.
  predicate LoopEnded(r: Readout) {
    !r.Waiting? && !r.AwaitingFrame? && !r.Handling? ==> r.current.todo == []
  }

  predicate Safe(s: State) {
    Bounded(s) && ReadyIsQuiet(s) && SlotMatchesCompressor(s) && LoopEnded(s.readout)
  }

  ghost predicate Inv(s: State) {
    Conserved(s) && InOrder(s) && Safe(s)
  }

  // ----- Every step keeps the invariant -----

  lemma {:induction false} LentByAppend(requests: seq<Request>, r: Request)
    ensures LentBy(requests + [r]) == LentBy(requests) + Lent(r.frame, r.buffers)
  {
    if requests == [] {
      assert [r][1..] == [];
    } else {
      assert (requests + [r])[1..] == requests[1..] + [r];
      LentByAppend(requests[1..], r);
    }
  }

  lemma DoneAppend(frame: nat, finished: seq<Finished>, f: Finished)
    ensures Done(frame, finished + [f]) == Done(frame, finished) + multiset{(frame, f.buffer)}
  {
  }

  lemma SendAppend(results: seq<Result>, r: Result)
    ensures Returned(results + [r]) == Returned(results) + Done(r.frame, r.buffers)
    ensures MetadataFrames(results + [r]) == MetadataFrames(results) + (if r.hasMetadata then [r.frame] else [])
  {
  }

  lemma EnqueueConserves(s: State)
    requires Conserved(s) && s.submission.Admitted?
    ensures Conserved(Enqueue(s))
  {
    var r := s.submission.request;
    LentByAppend(s.queue, r);
    LentByAppend(s.accepted, r);
  }

  lemma EnqueueOrders(s: State)
    requires InOrder(s) && s.submission.Admitted?
    ensures InOrder(Enqueue(s))
  {
    var r := s.submission.request;
    assert Frames(s.queue + [r]) == Frames(s.queue) + [r.frame];
    assert Frames(s.accepted + [r]) == Frames(s.accepted) + [r.frame];
  }

  lemma DequeueOrders(s: State)
    requires InOrder(s) && CanDequeue(s)
    ensures InOrder(Dequeue(s))
  {
  }

  lemma DequeueConserves(s: State)
    requires Conserved(s) && CanDequeue(s)
    ensures Conserved(Dequeue(s))
  {
  }

  lemma HandleConserves(s: State, starts: bool)
    requires Conserved(s) && CanHandle(s)
    ensures Conserved(Handle(s, starts))
  {
    var c := s.readout.current;
    var b := c.todo[0];
    DoneAppend(c.frame, c.finished, Finished(b, b.kind != Jpeg));
  }

  lemma StepMovesNothing(s: State, s': State)
    requires Conserved(s)
    requires s'.accepted == s.accepted && s'.returned == s.returned && s'.queue == s.queue && s'.slot == s.slot
    requires s'.readout.Waiting? == s.readout.Waiting?
    requires !s.readout.Waiting? ==> s'.readout.current == s.readout.current
    ensures Conserved(s')
  {
  }

  lemma SendConserves(s: State)
    requires Conserved(s) && LoopEnded(s.readout) && s.readout.Sending?
    ensures Conserved(Send(s))
  {
  }

  lemma SendOrders(s: State)
    requires InOrder(s) && s.readout.Sending?
    ensures InOrder(Send(s))
  {
  }

  lemma FinishJpegConserves(s: State, success: bool)
    requires Conserved(s) && CanFinishJpeg(s)
    ensures Conserved(FinishJpeg(s, success))
  {
    var f := Finished(s.slot.buffer, success);
    SendAppend(s.returned, Result(s.slot.frame, false, [f]));
    assert [f] == [] + [f];
    DoneAppend(s.slot.frame, [], f);
  }

  lemma FinishJpegOrders(s: State, success: bool)
    requires InOrder(s) && CanFinishJpeg(s)
    ensures InOrder(FinishJpeg(s, success))
  {
  }

  lemma StepConserves(s: State, a: Action)
    requires Conserved(s) && LoopEnded(s.readout) && Enabled(s, a)
    ensures Conserved(Apply(s, a))
  {
    match a
    case DoEnqueue => EnqueueConserves(s);
    case DoDequeue => DequeueConserves(s);
    case DoHandle(starts) => HandleConserves(s, starts);
    case DoSend => SendConserves(s);
    case DoFinishJpeg(success) => FinishJpegConserves(s, success);
    case _ => StepMovesNothing(s, Apply(s, a));
  }

  lemma StepOrders(s: State, a: Action)
    requires InOrder(s) && Enabled(s, a)
    ensures InOrder(Apply(s, a))
  {
    match a
    case DoEnqueue => EnqueueOrders(s);
    case DoDequeue => DequeueOrders(s);
    case DoSend => SendOrders(s);
    case DoFinishJpeg(success) => FinishJpegOrders(s, success);
    case _ =>
  }

  lemma StepIsSafe(s: State, a: Action)
    requires Safe(s) && Enabled(s, a)
    ensures Safe(Apply(s, a))
  {
  }

  lemma StepKeeps(s: State, a: Action)
    requires Inv(s) && Enabled(s, a)
    ensures Inv(Apply(s, a))
  {
    StepIsSafe(s, a);
    StepConserves(s, a);
    StepOrders(s, a);
  }

  lemma {:induction false} RunKeeps(s: State, actions: seq<Action>, s': State)
    requires Inv(s) && Run(s, actions, s')
    ensures Inv(s')
    decreases |actions|
  {
    if actions != [] {
      StepKeeps(s, actions[0]);
      RunKeeps(Apply(s, actions[0]), actions[1..], s');
    }
  }

  ghost predicate Reachable(s: State) {
    exists actions :: Run(Initial, actions, s)
  }

  lemma ReachableInv(s: State)
    requires Reachable(s)
    ensures Inv(s)
  {
    var actions :| Run(Initial, actions, s);
    RunKeeps(Initial, actions, s);
  }

  // ----- What holds in every reachable state -----

  /** Each buffer lent by an accepted request is in exactly one place, so none is returned
      more often than it was lent, and when nothing is in flight all have been returned. */
  lemma BuffersAreConserved(s: State)
    requires Reachable(s)
    ensures LentBy(s.accepted) == Returned(s.returned) + InReadout(s.readout) + LentBy(s.queue) + InSlot(s.slot)
    ensures forall loan :: Returned(s.returned)[loan] <= LentBy(s.accepted)[loan]
    ensures s.queue == [] && s.readout.Waiting? && s.slot.NoJpeg? ==> Returned(s.returned) == LentBy(s.accepted)
  {
    ReachableInv(s);
  }

  lemma {:induction false} LentMember(frame: nat, buffers: seq<Buffer>, loan: Loan)
    requires loan in Lent(frame, buffers)
    ensures loan.0 == frame && loan.1 in buffers
  {
    if loan != (frame, buffers[0]) {
      LentMember(frame, buffers[1..], loan);
    }
  }

  lemma {:induction false} LentByMember(requests: seq<Request>, loan: Loan)
    requires loan in LentBy(requests)
    ensures exists r :: r in requests && r.frame == loan.0 && loan.1 in r.buffers
  {
    if loan in Lent(requests[0].frame, requests[0].buffers) {
      LentMember(requests[0].frame, requests[0].buffers, loan);
      assert requests[0] in requests;
    } else {
      LentByMember(requests[1..], loan);
      var r :| r in requests[1..] && r.frame == loan.0 && loan.1 in r.buffers;
      assert r in requests;
    }
  }

  lemma {:induction false} DoneHas(frame: nat, finished: seq<Finished>, i: nat)
    requires i < |finished|
    ensures (frame, finished[i].buffer) in Done(frame, finished)
  {
    if i < |finished| - 1 {
      DoneHas(frame, finished[..|finished| - 1], i);
    }
  }

  lemma {:induction false} ReturnedHas(results: seq<Result>, k: nat, i: nat)
    requires k < |results| && i < |results[k].buffers|
    ensures (results[k].frame, results[k].buffers[i].buffer) in Returned(results)
  {
    if k < |results| - 1 {
      ReturnedHas(results[..|results| - 1], k, i);
    } else {
      DoneHas(results[k].frame, results[k].buffers, i);
    }
  }

  /** A buffer comes back only under the frame number of an accepted request that lent it. */
  lemma ReturnedUnderOwnFrame(s: State, k: nat, i: nat)
    requires Reachable(s) && k < |s.returned| && i < |s.returned[k].buffers|
    ensures exists r :: r in s.accepted && r.frame == s.returned[k].frame
                        && s.returned[k].buffers[i].buffer in r.buffers
  {
    BuffersAreConserved(s);
    ReturnedHas(s.returned, k, i);
    LentByMember(s.accepted, (s.returned[k].frame, s.returned[k].buffers[i].buffer));
  }

  /** Metadata results come out one per accepted request, in submission order. */
  lemma MetadataInSubmissionOrder(s: State)
    requires Reachable(s)
    ensures MetadataFrames(s.returned) <= Frames(s.accepted)
    ensures |s.accepted| == |MetadataFrames(s.returned)| + |s.queue| + (if s.readout.Waiting? then 0 else 1)
  {
    ReachableInv(s);
    assert |Frames(s.accepted)| == |s.accepted| && |Frames(s.queue)| == |s.queue|;
  }

  /** The queue bound, and what the READY status promises. */
  lemma QueueBoundedAndReadyQuiet(s: State)
    requires Reachable(s)
    ensures |s.queue| <= MAX_QUEUE_SIZE
    ensures s.status == Ready ==> s.queue == [] && !s.threadActive
  {
    ReachableInv(s);
  }

  // The JPEG in the slot of s has been returned, under its own frame, since s.
  ghost predicate JpegReturned(s: State, s': State)
    requires s.slot.JpegWaiting?
  {
    exists i, ok :: |s.returned| <= i < |s'.returned|
                    && s'.returned[i] == Result(s.slot.frame, false, [Finished(s.slot.buffer, ok)])
  }

  lemma StepKeepsReturned(s: State, a: Action)
    requires Enabled(s, a)
    ensures s.returned <= Apply(s, a).returned
  {
  }

  lemma {:induction false} RunKeepsReturned(s: State, actions: seq<Action>, s': State)
    requires Run(s, actions, s')
    ensures s.returned <= s'.returned
    decreases |actions|
  {
    if actions != [] {
      StepKeepsReturned(s, actions[0]);
      RunKeepsReturned(Apply(s, actions[0]), actions[1..], s');
    }
  }

  /** On every run from a state with a JPEG outstanding, the slot is as it was or that JPEG
      has been returned in a result of its own: it is never overwritten. */
  lemma {:induction false} JpegSlotNeverOverwritten(s: State, actions: seq<Action>, s': State)
    requires s.slot.JpegWaiting? && Run(s, actions, s')
    ensures s'.slot == s.slot || JpegReturned(s, s')
    decreases |actions|
  {
    if actions != [] {
      var next := Apply(s, actions[0]);
      RunKeepsReturned(next, actions[1..], s');
      match actions[0]
      case DoFinishJpeg(success) =>
        assert s'.returned[|s.returned|] == Result(s.slot.frame, false, [Finished(s.slot.buffer, success)]);
      case _ =>
        JpegSlotNeverOverwritten(next, actions[1..], s');
    }
  }

  lemma {:induction false} RunJoin(s: State, front: seq<Action>, mid: State, back: seq<Action>, s': State)
    requires Run(s, front, mid) && Run(mid, back, s')
    ensures Run(s, front + back, s')
    decreases |front|
  {
    if front == [] {
      assert front + back == back;
    } else {
      assert (front + back)[1..] == front[1..] + back;
      RunJoin(Apply(s, front[0]), front[1..], mid, back, s');
    }
  }

  lemma ReachableStep(s: State, a: Action)
    requires Reachable(s) && Enabled(s, a)
    ensures Reachable(Apply(s, a))
  {
    var actions :| Run(Initial, actions, s);
    var s' := Apply(s, a);
    assert Run(s', [], s');
    assert Run(s, [a], s');
    RunJoin(Initial, actions, s, [a], s');
  }

  // Carries an accepted request on its own from the initial state to the buffer loop.
  ghost function Submitted(r: Request): State {
    Initial.(status := Active, threadActive := true, accepted := [r],
             compressor := if NeedsCompressor(r) then Reserved else Idle,
             readout := Handling(Current(r.frame, [], r.buffers)))
  }

  lemma SubmitRuns(r: Request) returns (actions: seq<Action>)
    requires r.buffers != []
    ensures Run(Initial, actions, Submitted(r))
    ensures forall a :: a in actions && a.DoBegin? ==> a.r == r
  {
    var s0 := Begin(Initial, r);
    var s1 := Prepare(s0);
    var s2 := Admit(s1);
    var s3 := Enqueue(s2);
    var s4 := Dequeue(s3);
    var s5 := FrameArrived(s4);
    assert s5 == Submitted(r);
    assert Run(s5, [], s5);
    assert Run(s4, [DoFrame], s5);
    actions := [DoDequeue, DoFrame];
    assert actions[1..] == [DoFrame];
    assert Run(s3, actions, s5);
    actions := [DoEnqueue] + actions;
    assert Run(s2, actions, s5);
    actions := [DoAdmit] + actions;
    assert Run(s1, actions, s5);
    actions := [DoPrepare] + actions;
    assert Run(s0, actions, s5);
    actions := [DoBegin(r)] + actions;
  }

  // From the end of the buffer loop of a lone request to the point where its result is due.
  lemma SettleRuns(s: State)
    requires CanGoIdle(s) && s.queue == [] && s.status == Active && s.submission.NoSubmission?
    ensures Run(s, [DoGoIdle, DoLockForIdle, DoCheckIdle, DoSettleIdle],
                s.(threadActive := false, status := Ready, readout := Sending(s.readout.current)))
  {
  }

  // ----- The status a buffer is returned with -----

  // A buffer finished by the buffer loop is good exactly if it is no JPEG: a JPEG gets here only
  // when it could not be handed to the compressor.
  predicate LoopStatus(f: Finished) {
    f.ok <==> f.buffer.kind != Jpeg
  }

  predicate ResultStatus(r: Result) {
    if r.hasMetadata then forall i :: 0 <= i < |r.buffers| ==> LoopStatus(r.buffers[i])
    else |r.buffers| == 1 && r.buffers[0].buffer.kind == Jpeg
  }

  predicate StatusInv(s: State) {
    && (forall k :: 0 <= k < |s.returned| ==> ResultStatus(s.returned[k]))
    && (!s.readout.Waiting? ==>
          forall i :: 0 <= i < |s.readout.current.finished| ==> LoopStatus(s.readout.current.finished[i]))
    && (s.slot.JpegWaiting? ==> s.slot.buffer.kind == Jpeg)
  }

  lemma StatusStep(s: State, a: Action)
    requires StatusInv(s) && Enabled(s, a)
    ensures StatusInv(Apply(s, a))
  {
  }

  lemma {:induction false} StatusRun(s: State, actions: seq<Action>, s': State)
    requires StatusInv(s) && Run(s, actions, s')
    ensures StatusInv(s')
    decreases |actions|
  {
    if actions != [] {
      StatusStep(s, actions[0]);
      StatusRun(Apply(s, actions[0]), actions[1..], s');
    }
  }

  /** On every run, a buffer that comes back with the metadata of its request is good exactly if
      it is no JPEG, whatever else is outstanding, and what comes back on its own is one JPEG. */
  lemma ReturnedStatus(s: State, k: nat)
    requires Reachable(s) && k < |s.returned|
    ensures s.returned[k].hasMetadata ==>
              forall i :: 0 <= i < |s.returned[k].buffers| ==>
                (s.returned[k].buffers[i].ok <==> s.returned[k].buffers[i].buffer.kind != Jpeg)
    ensures !s.returned[k].hasMetadata ==>
              |s.returned[k].buffers| == 1 && s.returned[k].buffers[0].buffer.kind == Jpeg
  {
    var actions :| Run(Initial, actions, s);
    StatusRun(Initial, actions, s);
    assert ResultStatus(s.returned[k]);
    if s.returned[k].hasMetadata {
      assert forall i :: 0 <= i < |s.returned[k].buffers| ==> LoopStatus(s.returned[k].buffers[i]);
    }
  }

  lemma {:induction false} LentNothing(frame: nat, buffers: seq<Buffer>)
    ensures Lent(frame, buffers) == multiset{} <==> buffers == []
  {
    if buffers != [] {
      assert (frame, buffers[0]) in Lent(frame, buffers);
    }
  }

  lemma {:induction false} DoneNothing(frame: nat, finished: seq<Finished>)
    ensures Done(frame, finished) == multiset{} <==> finished == []
  {
    if finished != [] {
      DoneHas(frame, finished, 0);
    }
  }

  // Nothing of an accepted request is outside the queue.
  predicate NothingHeld(s: State) {
    s.slot.NoJpeg? && (s.readout.Waiting? || (s.readout.current.finished == [] && s.readout.current.todo == []))
  }

  lemma HeldNothing(s: State)
    ensures InReadout(s.readout) + InSlot(s.slot) == multiset{} <==> NothingHeld(s)
  {
    if s.slot.JpegWaiting? {
      assert (s.slot.frame, s.slot.buffer) in InReadout(s.readout) + InSlot(s.slot);
    } else if !s.readout.Waiting? {
      var c := s.readout.current;
      LentNothing(c.frame, c.todo);
      DoneNothing(c.frame, c.finished);
      assert forall m: multiset<Loan>, n: multiset<Loan> :: m + n == multiset{} ==> m == multiset{} && n == multiset{};
    }
  }

  /** What READY promises about buffers: everything lent has been returned exactly when no
      JPEG is outstanding and the readout thread holds no buffer of a result yet to be sent. */
  lemma ReadyAllReturnedIff(s: State)
    requires Reachable(s) && s.status == Ready
    ensures Returned(s.returned) == LentBy(s.accepted) <==> NothingHeld(s)
  {
    ReachableInv(s);
    HeldNothing(s);
    assert LentBy(s.queue) == multiset{};
    var held := InReadout(s.readout) + InSlot(s.slot);
    assert LentBy(s.accepted) == Returned(s.returned) + held;
  }

  // A lone request on its way to READY, its one buffer handled.
  lemma LoneRequestRuns(b: Buffer, starts: bool) returns (s: State)
    ensures Reachable(s) && s.status == Ready && s.readout.Sending? && s.readout.current.todo == []
    ensures b.kind == Jpeg && starts ==> s.slot == JpegWaiting(0, b) && s.compressor == Compressing
    ensures b.kind == Image ==> s.slot == NoJpeg && s.readout.current == Current(0, [Finished(b, true)], [])
    ensures b.kind == Jpeg && starts ==> s.readout.current.finished == []
  {
    var r := Request(0, [b]);
    var front := SubmitRuns(r);
    var s0 := Submitted(r);
    assert b.kind != Image ==> r.buffers[0].kind != Image;
    var s1 := Handle(s0, starts);
    assert Run(s1, [], s1);
    assert Run(s0, [DoHandle(starts)], s1);
    RunJoin(Initial, front, s0, [DoHandle(starts)], s1);
    SettleRuns(s1);
    s := s1.(threadActive := false, status := Ready, readout := Sending(s1.readout.current));
    RunJoin(Initial, front + [DoHandle(starts)], s1, [DoGoIdle, DoLockForIdle, DoCheckIdle, DoSettleIdle], s);
  }

  /** Both ways it fails do occur: READY with a result unsent, because the status changes
      before the last result goes out, ... */
  lemma ReadyWithUnsentBuffer(b: Buffer)
    requires b.kind == Image
    ensures exists s :: Reachable(s) && s.status == Ready && s.slot.NoJpeg?
                        && Returned(s.returned) != LentBy(s.accepted)
  {
    var s := LoneRequestRuns(b, false);
    ReadyAllReturnedIff(s);
  }

  /** ... and READY with nothing left to send but a JPEG still being compressed. */
  lemma ReadyWithJpegOutstanding(b: Buffer)
    requires b.kind == Jpeg
    ensures exists s :: Reachable(s) && s.status == Ready && s.readout.Waiting? && s.slot == JpegWaiting(0, b)
                        && Returned(s.returned) != LentBy(s.accepted)
  {
    var s := LoneRequestRuns(b, true);
    ReachableStep(s, DoSend);
    ReadyAllReturnedIff(Send(s));
  }
}
