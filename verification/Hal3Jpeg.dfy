/**
 The JPEG compressor's reservation, followed across the submitter, the readout thread and
 the compressor thread.
 */
module Hal3Jpeg {
  import opened Hal3Pipeline

  function JpegCount(buffers: seq<Buffer>): nat {
    if buffers == [] then 0 else (if buffers[0].kind == Jpeg then 1 else 0) + JpegCount(buffers[1..])
  }

  function QueuedJpegs(queue: seq<Request>): nat {
    if queue == [] then 0 else JpegCount(queue[0].buffers) + QueuedJpegs(queue[1..])
  }

  // JPEG buffers of accepted requests that the buffer loop has yet to reach.
  function PendingJpegs(s: State): nat {
    QueuedJpegs(s.queue) + (if s.readout.Waiting? then 0 else JpegCount(s.readout.current.todo))
  }

  predicate HoldsReservation(s: State) {
    (s.submission.Prepared? || s.submission.Admitted?) && NeedsCompressor(s.submission.request)
  }

  // The reservation belongs to at most one request; an open submission that holds it
  // excludes every JPEG still to be read out.
  predicate ReservationInv(s: State) {
    && SlotMatchesCompressor(s)
    && LoopEnded(s.readout)
    && (!s.submission.NoSubmission? ==> JpegCount(s.submission.request.buffers) <= 1)
    && PendingJpegs(s) <= 1
    && (PendingJpegs(s) == 1 ==> s.compressor == Reserved && !HoldsReservation(s))
    && (HoldsReservation(s) ==> s.compressor == Reserved)
  }

  predicate SingleJpeg(a: Action) {
    a.DoBegin? ==> JpegCount(a.r.buffers) <= 1
  }

  lemma {:induction false} QueuedAppend(queue: seq<Request>, r: Request)
    ensures QueuedJpegs(queue + [r]) == QueuedJpegs(queue) + JpegCount(r.buffers)
  {
    if queue != [] {
      assert (queue + [r])[1..] == queue[1..] + [r];
      QueuedAppend(queue[1..], r);
    }
  }

  lemma {:induction false} JpegNeedsCompressor(r: Request, from: nat)
    requires from <= |r.buffers| && JpegCount(r.buffers[from..]) > 0
    ensures NeedsCompressor(r)
    decreases |r.buffers| - from
  {
    if r.buffers[from].kind != Jpeg {
      assert r.buffers[from..][1..] == r.buffers[from + 1..];
      JpegNeedsCompressor(r, from + 1);
    }
  }

  lemma NoCompressorNoJpeg(r: Request)
    ensures !NeedsCompressor(r) ==> JpegCount(r.buffers) == 0
  {
    if JpegCount(r.buffers) > 0 {
      assert r.buffers[0..] == r.buffers;
      JpegNeedsCompressor(r, 0);
    }
  }

  lemma StepKeepsReservation(s: State, a: Action)
    requires ReservationInv(s) && Enabled(s, a) && SingleJpeg(a)
    ensures ReservationInv(Apply(s, a))
  {
    match a
    case DoEnqueue =>
      QueuedAppend(s.queue, s.submission.request);
      NoCompressorNoJpeg(s.submission.request);
    case _ =>
  }

  lemma {:induction false} RunKeepsReservation(s: State, actions: seq<Action>, s': State)
    requires ReservationInv(s) && Run(s, actions, s')
    requires forall a :: a in actions ==> SingleJpeg(a)
    ensures ReservationInv(s')
    decreases |actions|
  {
    if actions != [] {
      StepKeepsReservation(s, actions[0]);
      RunKeepsReservation(Apply(s, actions[0]), actions[1..], s');
    }
  }

  // The buffer loop is at a JPEG while another one is still being compressed.
  predicate AlreadyProcessing(s: State) {
    CanHandle(s) && s.readout.current.todo[0].kind == Jpeg && s.slot.JpegWaiting?
  }

  /** While every request carries at most one JPEG buffer, the loop finds the slot free and
      the compressor reserved at each JPEG, under every interleaving. */
  lemma SlotFreeAtEveryJpeg(actions: seq<Action>, s: State)
    requires Run(Initial, actions, s) && forall a :: a in actions ==> SingleJpeg(a)
    requires CanHandle(s) && s.readout.current.todo[0].kind == Jpeg
    ensures s.slot.NoJpeg? && s.compressor == Reserved
    ensures !AlreadyProcessing(s)
  {
    RunKeepsReservation(Initial, actions, s);
  }

  lemma {:induction false} LoopReachesSecondJpeg(s: State) returns (actions: seq<Action>, s': State)
    requires s.readout.Handling?
    requires if s.slot.NoJpeg? then s.compressor == Reserved && JpegCount(s.readout.current.todo) >= 2
             else JpegCount(s.readout.current.todo) >= 1
    ensures Run(s, actions, s') && AlreadyProcessing(s')
    ensures forall a :: a in actions ==> a.DoHandle?
    decreases |s.readout.current.todo|
  {
    if AlreadyProcessing(s) {
      actions, s' := [], s;
    } else {
      var rest;
      rest, s' := LoopReachesSecondJpeg(Handle(s, true));
      actions := [DoHandle(true)] + rest;
    }
  }

  /** Exactly when it fails: a request with two or more JPEG buffers, submitted alone, can
      meet its own first JPEG in the slot. */
  lemma SecondJpegFindsSlotTaken(r: Request) returns (actions: seq<Action>, s: State)
    requires JpegCount(r.buffers) >= 2
    ensures Run(Initial, actions, s) && AlreadyProcessing(s)
    ensures forall a :: a in actions && a.DoBegin? ==> a.r == r
  {
    NoCompressorNoJpeg(r);
    var front := SubmitRuns(r);
    var back;
    back, s := LoopReachesSecondJpeg(Submitted(r));
    RunJoin(Initial, front, Submitted(r), back, s);
    actions := front + back;
  }

  // Reserved, and no request is left that would start the compressor.
  predicate Wedged(s: State) {
    s.compressor == Reserved && PendingJpegs(s) == 0 && !HoldsReservation(s)
  }

  // The three ways in, for a compressor that is reserved: a submission that reserved it fails,
  // a BLOB request without a JPEG is queued, or the last JPEG that is due does not start.
  predicate Wedges(s: State, a: Action)
    requires Enabled(s, a)
  {
    && s.compressor == Reserved
    && match a
       case DoAbandon => HoldsReservation(s) && PendingJpegs(s) == 0
       case DoEnqueue => HoldsReservation(s) && PendingJpegs(s) == 0 && JpegCount(s.submission.request.buffers) == 0
       case DoHandle(starts) =>
         && s.readout.current.todo[0].kind == Jpeg && PendingJpegs(s) == 1 && !HoldsReservation(s)
         && !(s.slot.NoJpeg? && starts)
       case _ => false
  }

  /** The exact entry into the wedged states, for every step of every run. */
  lemma WhenTheCompressorWedges(s: State, a: Action)
    requires LoopEnded(s.readout) && Enabled(s, a) && !Wedged(s)
    ensures Wedged(Apply(s, a)) <==> Wedges(s, a)
  {
    if a.DoEnqueue? {
      QueuedAppend(s.queue, s.submission.request);
      NoCompressorNoJpeg(s.submission.request);
    }
  }

  /** While no request has two JPEG buffers the guard is simply one of the three events. */
  lemma WedgesWithSingleJpegs(s: State, a: Action)
    requires ReservationInv(s) && Enabled(s, a) && !Wedged(s)
    ensures Wedges(s, a) <==>
              || (a.DoAbandon? && HoldsReservation(s))
              || (a.DoEnqueue? && HoldsReservation(s) && JpegCount(s.submission.request.buffers) == 0)
              || (a.DoHandle? && !a.starts && s.readout.current.todo[0].kind == Jpeg)
  {
  }

  /** The third way needs no failed call and no depth stream: one accepted request with one
      JPEG buffer is enough. */
  lemma RefusedStartWedges(b: Buffer) returns (actions: seq<Action>, s: State)
    requires b.kind == Jpeg
    ensures Run(Initial, actions, s) && Wedged(s) && s.accepted == [Request(0, [b])]
  {
    var r := Request(0, [b]);
    assert r.buffers[0].kind != Image;
    var front := SubmitRuns(r);
    s := Handle(Submitted(r), false);
    assert Run(s, [], s);
    assert Run(Submitted(r), [DoHandle(false)], s);
    RunJoin(Initial, front, Submitted(r), [DoHandle(false)], s);
    actions := front + [DoHandle(false)];
  }

  lemma StepStaysWedged(s: State, a: Action)
    requires Wedged(s) && Enabled(s, a)
    ensures Wedged(Apply(s, a))
    ensures a.DoEnqueue? ==> !NeedsCompressor(s.submission.request)
  {
    if a.DoEnqueue? {
      QueuedAppend(s.queue, s.submission.request);
      NoCompressorNoJpeg(s.submission.request);
    }
  }

  /** A wedged compressor stays wedged, and no request with a BLOB buffer is accepted again. */
  lemma {:induction false} WedgedForever(s: State, actions: seq<Action>, s': State)
    requires Wedged(s) && Run(s, actions, s')
    ensures Wedged(s') && s.accepted <= s'.accepted
    ensures forall i :: |s.accepted| <= i < |s'.accepted| ==> !NeedsCompressor(s'.accepted[i])
    decreases |actions|
  {
    if actions != [] {
      StepStaysWedged(s, actions[0]);
      WedgedForever(Apply(s, actions[0]), actions[1..], s');
    }
  }

  // A request whose BLOB buffers are all depth buffers is about to be queued.
  predicate DepthRequestDue(s: State) {
    s.submission.Admitted? && NeedsCompressor(s.submission.request) && JpegCount(s.submission.request.buffers) == 0
  }

  /** Queueing a depth-only BLOB request wedges the compressor exactly when the compressor is
      still reserved and no JPEG is waiting to use the reservation, in any state whatever. */
  lemma DepthRequestWedgesIff(s: State)
    requires DepthRequestDue(s)
    ensures Wedged(Enqueue(s)) <==> s.compressor == Reserved && PendingJpegs(s) == 0
  {
    QueuedAppend(s.queue, s.submission.request);
  }

  /** Then it is the last BLOB request the camera accepts. */
  lemma DepthRequestIsLastBlob(s: State, back: seq<Action>, s': State)
    requires DepthRequestDue(s) && s.compressor == Reserved && PendingJpegs(s) == 0
    requires Run(Enqueue(s), back, s')
    ensures forall i :: |s.accepted| < i < |s'.accepted| ==> !NeedsCompressor(s'.accepted[i])
  {
    DepthRequestWedgesIff(s);
    WedgedForever(Enqueue(s), back, s');
  }

  /** While no request has two JPEG buffers that is so for every depth-only BLOB request. */
  lemma DepthRequestFindsItsReservation(actions: seq<Action>, s: State)
    requires Run(Initial, actions, s) && forall a :: a in actions ==> SingleJpeg(a)
    requires DepthRequestDue(s)
    ensures s.compressor == Reserved && PendingJpegs(s) == 0
  {
    RunKeepsReservation(Initial, actions, s);
  }

  // One more step at the end of a run.
  lemma RunMore(actions: seq<Action>, s: State, a: Action) returns (more: seq<Action>, s': State)
    requires Run(Initial, actions, s) && Enabled(s, a)
    ensures s' == Apply(s, a) && Run(Initial, more, s')
  {
    s' := Apply(s, a);
    assert Run(s', [], s');
    assert Run(s, [a], s');
    RunJoin(Initial, actions, s, [a], s');
    more := actions + [a];
  }

  // The first of two JPEGs is done, the second still to be handled.
  lemma FirstJpegDone(first: Buffer, second: Buffer) returns (actions: seq<Action>, s: State)
    requires first.kind == Jpeg && second.kind == Jpeg
    ensures Run(Initial, actions, s) && s.submission.NoSubmission? && s.status == Active && s.queue == []
    ensures s.compressor == Idle && s.slot.NoJpeg? && s.readout == Handling(Current(0, [], [second]))
  {
    var r := Request(0, [first, second]);
    assert r.buffers[0].kind != Image;
    actions := SubmitRuns(r);
    s := Submitted(r);
    actions, s := RunMore(actions, s, DoHandle(true));
    actions, s := RunMore(actions, s, DoFinishJpeg(true));
    actions, s := RunMore(actions, s, DoCleanUp);
  }

  // Meanwhile a depth-only request has reserved the compressor.
  lemma DepthRequestReserves(first: Buffer, second: Buffer, depth: Buffer) returns (actions: seq<Action>, s: State)
    requires first.kind == Jpeg && second.kind == Jpeg && depth.kind == DepthBlob
    ensures Run(Initial, actions, s) && DepthRequestDue(s) && s.compressor == Reserved && s.slot.NoJpeg?
    ensures s.readout == Handling(Current(0, [], [second]))
  {
    var r := Request(1, [depth]);
    assert r.buffers[0].kind != Image && JpegCount(r.buffers) == 0;
    actions, s := FirstJpegDone(first, second);
    actions, s := RunMore(actions, s, DoBegin(r));
    actions, s := RunMore(actions, s, DoPrepare);
    actions, s := RunMore(actions, s, DoAdmit);
  }

  /** With two JPEG buffers in one request it need not be: the second JPEG starts on the
      depth-only request's reservation. */
  lemma SecondJpegTakesTheReservation(first: Buffer, second: Buffer, depth: Buffer)
    returns (actions: seq<Action>, s: State)
    requires first.kind == Jpeg && second.kind == Jpeg && depth.kind == DepthBlob
    ensures Run(Initial, actions, s) && DepthRequestDue(s) && s.compressor == Compressing && !Wedged(Enqueue(s))
  {
    actions, s := DepthRequestReserves(first, second, depth);
    actions, s := RunMore(actions, s, DoHandle(true));
  }
}
