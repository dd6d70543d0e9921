/**
 Progress of the HAL3 pipeline: once no submission is open, the readout thread and the JPEG
 compressor have only a bounded number of steps left, one of them can always be taken until
 nothing is in flight, and then every buffer and all metadata have come back.
 */
module Hal3Progress {
  import opened Hal3Pipeline

  // The steps of the readout thread, and the compressor finishing a JPEG.
  predicate Drains(a: Action) {
    match a
    case DoDequeue => true
    case DoFrame => true
    case DoHandle(_) => true
    case DoGoIdle => true
    case DoLockForIdle => true
    case DoCheckIdle => true
    case DoSettleIdle => true
    case DoSend => true
    case DoFinishJpeg(_) => true
    case _ => false
  }

  // Steps a queued request, the request in readout and a JPEG in the slot may still take.
  function QueueWork(queue: seq<Request>): nat {
    if queue == [] then 0 else 7 + 2 * |queue[0].buffers| + QueueWork(queue[1..])
  }

  function ReadoutWork(r: Readout): nat {
    match r
    case Waiting => 0
    case AwaitingFrame(c) => 6 + 2 * |c.todo|
    case Handling(c) => 5 + 2 * |c.todo|
    case SignalIdle(_) => 4
    case IdleLocked(_) => 3
    case IdleChecked(_, _) => 2
    case Sending(_) => 1
  }

  function Work(s: State): nat {
    QueueWork(s.queue) + ReadoutWork(s.readout) + (if s.slot.JpegWaiting? then 1 else 0)
  }

  predicate Drained(s: State) {
    s.queue == [] && s.readout.Waiting? && s.slot.NoJpeg?
  }

  lemma DrainStepWorks(s: State, a: Action)
    requires Enabled(s, a) && Drains(a)
    ensures Work(Apply(s, a)) < Work(s)
    ensures Apply(s, a).submission == s.submission && Apply(s, a).accepted == s.accepted
  {
  }

  // The step that can be taken next.
  function NextDrain(s: State): Action {
    match s.readout
    case Waiting => if s.queue != [] then DoDequeue else DoFinishJpeg(true)
    case AwaitingFrame(_) => DoFrame
    case Handling(c) => if c.todo != [] then DoHandle(true) else DoGoIdle
    case SignalIdle(_) => DoLockForIdle
    case IdleLocked(_) => DoCheckIdle
    case IdleChecked(_, _) => DoSettleIdle
    case Sending(_) => DoSend
  }

  lemma NeverStuck(s: State)
    requires SlotMatchesCompressor(s) && s.submission.NoSubmission? && !Drained(s)
    ensures Drains(NextDrain(s)) && Enabled(s, NextDrain(s))
  {
  }

  // The two threads can go no further.
  ghost predicate Halted(s: State) {
    forall a :: Drains(a) ==> !Enabled(s, a)
  }

  lemma HaltedIffDrained(s: State)
    requires SlotMatchesCompressor(s) && s.submission.NoSubmission?
    ensures Halted(s) <==> Drained(s)
  {
    if !Drained(s) {
      NeverStuck(s);
    }
  }

  /** However the two threads go on from a state without an open submission, they take no more
      than Work steps. */
  lemma {:induction false} DrainIsBounded(s: State, actions: seq<Action>, s': State)
    requires Run(s, actions, s') && forall a :: a in actions ==> Drains(a)
    ensures |actions| + Work(s') <= Work(s)
    ensures s'.submission == s.submission && s'.accepted == s.accepted
    decreases |actions|
  {
    if actions != [] {
      DrainStepWorks(s, actions[0]);
      DrainIsBounded(Apply(s, actions[0]), actions[1..], s');
    }
  }

  lemma {:induction false} ReachableRun(s: State, actions: seq<Action>, s': State)
    requires Reachable(s) && Run(s, actions, s')
    ensures Reachable(s')
    decreases |actions|
  {
    if actions != [] {
      ReachableStep(s, actions[0]);
      ReachableRun(Apply(s, actions[0]), actions[1..], s');
    }
  }

  lemma DrainedReturnedAll(s: State)
    requires Reachable(s) && Drained(s)
    ensures Returned(s.returned) == LentBy(s.accepted) && MetadataFrames(s.returned) == Frames(s.accepted)
  {
    BuffersAreConserved(s);
    ReachableInv(s);
  }

  /** Everything comes back: whatever order the threads take, they come to a halt within Work
      steps, and where they can go no further all lent buffers have been returned and all
      metadata results sent. */
  lemma EverythingComesBack(s: State, actions: seq<Action>, s': State)
    requires Reachable(s) && s.submission.NoSubmission?
    requires Run(s, actions, s') && forall a :: a in actions ==> Drains(a)
    ensures |actions| <= Work(s)
    ensures Halted(s') ==>
              Returned(s'.returned) == LentBy(s.accepted) && MetadataFrames(s'.returned) == Frames(s.accepted)
  {
    DrainIsBounded(s, actions, s');
    ReachableRun(s, actions, s');
    ReachableInv(s');
    HaltedIffDrained(s');
    if Drained(s') {
      DrainedReturnedAll(s');
    }
  }

  /** And such a halt is always reached. */
  lemma {:induction false} DrainRuns(s: State) returns (actions: seq<Action>, s': State)
    requires Reachable(s) && s.submission.NoSubmission?
    ensures Run(s, actions, s') && Drained(s') && forall a :: a in actions ==> Drains(a)
    decreases Work(s)
  {
    if Drained(s) {
      actions, s' := [], s;
    } else {
      ReachableInv(s);
      NeverStuck(s);
      var a := NextDrain(s);
      DrainStepWorks(s, a);
      ReachableStep(s, a);
      var rest;
      rest, s' := DrainRuns(Apply(s, a));
      actions := [a] + rest;
    }
  }
}
