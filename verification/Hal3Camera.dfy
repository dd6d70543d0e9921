/**
 The HAL3 camera object: the fields the three threads update, and one method per critical
 section. Each method carries out one step of the transition system on the abstract state
 and keeps that state reachable, so it can promise what holds in every reachable state.
 */
module Hal3Camera {
  import opened Hal3Pipeline

  datatype Location = AtWait | AtSensor | AtLoop | AtSignal | AtLocked | AtChecked | AtSend

  lemma IdleStepsReachable(s: State)
    requires Reachable(s) && CanLockForIdle(s)
    ensures Reachable(SettleIdle(CheckIdle(LockForIdle(s))))
  {
    ReachableStep(s, DoLockForIdle);
    ReachableStep(LockForIdle(s), DoCheckIdle);
    ReachableStep(CheckIdle(LockForIdle(s)), DoSettleIdle);
  }

  class Camera3 {
    // Parent object.
    var status: Status
    var submission: Submission
    // Readout thread.
    var inFlightQueue: seq<Request>
    var threadActive: bool
    var location: Location
    var currentFrame: nat
    var finished: seq<Finished>
    var todo: seq<Buffer>
    var sawIdle: bool
    // JPEG slot and compressor.
    var jpegWaiting: bool
    var jpegFrameNumber: nat
    var jpegHalBuffer: Buffer
    var compressor: Compressor
    // History.
    ghost var accepted: seq<Request>
    ghost var returned: seq<Result>

    ghost function CurrentReadout(): Readout
      reads this
    {
      var c := Current(currentFrame, finished, todo);
      match location
      case AtWait => Waiting
      case AtSensor => AwaitingFrame(c)
      case AtLoop => Handling(c)
      case AtSignal => SignalIdle(c)
      case AtLocked => IdleLocked(c)
      case AtChecked => IdleChecked(c, sawIdle)
      case AtSend => Sending(c)
    }

    ghost function View(): State
      reads this
    {
      State(status, submission, inFlightQueue, threadActive, CurrentReadout(),
            if jpegWaiting then JpegWaiting(jpegFrameNumber, jpegHalBuffer) else NoJpeg,
            compressor, accepted, returned)
    }

    // Some interleaving of the three threads leads here.
    ghost predicate Valid()
      reads this
    {
      Reachable(View())
    }

    /** What that comes to in terms of the fields. */
    lemma ValidPromises()
      requires Valid()
      ensures |inFlightQueue| <= MAX_QUEUE_SIZE
      ensures status == Ready ==> inFlightQueue == [] && !threadActive
      ensures jpegWaiting <==> compressor == Compressing
      ensures LentBy(accepted)
           == Returned(returned) + InReadout(CurrentReadout()) + LentBy(inFlightQueue) + InSlot(View().slot)
      ensures MetadataFrames(returned) <= Frames(accepted)
    {
      ReachableInv(View());
      MetadataInSubmissionOrder(View());
    }

    // The buffer was lent by an accepted request with that frame number.
    ghost predicate LentUnder(frame: nat, buffer: Buffer)
      reads this
    {
      exists r :: r in accepted && r.frame == frame && buffer in r.buffers
    }

    lemma LastResultIsOwn()
      requires Valid() && returned != []
      ensures var last := returned[|returned| - 1];
              forall i :: 0 <= i < |last.buffers| ==> LentUnder(last.frame, last.buffers[i].buffer)
    {
      var last := returned[|returned| - 1];
      forall i | 0 <= i < |last.buffers| ensures LentUnder(last.frame, last.buffers[i].buffer) {
        ReturnedUnderOwnFrame(View(), |returned| - 1, i);
      }
    }

    constructor ()
      ensures Valid() && View() == Initial
    {
      status, submission, inFlightQueue, threadActive := Ready, NoSubmission, [], false;
      location, currentFrame, finished, todo, sawIdle := AtWait, 0, [], [], false;
      jpegWaiting, jpegFrameNumber, jpegHalBuffer, compressor := false, 0, Buffer(0, Image), Idle;
      accepted, returned := [], [];
      new;
      assert Run(Initial, [], Initial);
    }

    /** processCaptureRequest up to the point where the status becomes ACTIVE. */
    method BeginRequest(r: Request) returns (ok: bool)
      requires Valid() && ParentLockFree(View())
      modifies this`status, this`submission
      ensures Valid()
      ensures ok <==> CanBegin(old(View()), r)
      ensures View() == if ok then Begin(old(View()), r) else old(View())
      ensures ok <==> (old(status) == Ready || old(status) == Active) && r.buffers != []
      ensures ok ==> status == Active && submission == Started(r)
      ensures !ok ==> status == old(status) && submission == old(submission)
    {
      if CanBegin(View(), r) {
        ReachableStep(View(), DoBegin(r));
      }
      ok := (status == Ready || status == Active) && r.buffers != [];
      if ok {
        status := Active;
        submission := Started(r);
      }
    }

    /** Waiting for the compressor and reserving it; a timeout ends the call. */
    method ReserveCompressor() returns (ok: bool)
      requires Valid() && submission.Started?
      modifies this`compressor, this`submission
      ensures Valid()
      ensures ok <==> CanPrepare(old(View()))
      ensures View() == if ok then Prepare(old(View())) else Abandon(old(View()))
      ensures ok <==> old(compressor) == Idle || forall b :: b in old(submission).request.buffers ==> b.kind == Image
      ensures submission == if ok then Prepared(old(submission).request) else NoSubmission
      ensures compressor == if ok && !(forall b :: b in old(submission).request.buffers ==> b.kind == Image)
                            then Reserved else old(compressor)
    {
      ReachableStep(View(), if CanPrepare(View()) then DoPrepare else DoAbandon);
      var r := submission.request;
      if !NeedsCompressor(r) {
        ok := true;
      } else if compressor == Idle {
        compressor := Reserved;
        ok := true;
      } else {
        ok := false;
      }
      submission := if ok then Prepared(r) else NoSubmission;
    }

    /** waitForReadout: the room check; a timeout ends the call. */
    method WaitForReadout() returns (ok: bool)
      requires Valid() && submission.Prepared?
      modifies this`submission
      ensures Valid()
      ensures ok <==> CanAdmit(old(View()))
      ensures View() == if ok then Admit(old(View())) else Abandon(old(View()))
      ensures ok <==> |inFlightQueue| < 2
      ensures submission == if ok then Admitted(old(submission).request) else NoSubmission
    {
      ReachableStep(View(), if CanAdmit(View()) then DoAdmit else DoAbandon);
      ok := |inFlightQueue| < MAX_QUEUE_SIZE;
      submission := if ok then Admitted(submission.request) else NoSubmission;
    }

    /** queueCaptureRequest and the OK return. */
    method QueueCaptureRequest()
      requires Valid() && submission.Admitted?
      modifies this`submission, this`inFlightQueue, this`accepted
      ensures Valid()
      ensures View() == Enqueue(old(View()))
      ensures |inFlightQueue| <= MAX_QUEUE_SIZE
      ensures inFlightQueue == old(inFlightQueue) + [old(submission).request] && submission == NoSubmission
    {
      ghost var before := View();
      var r := submission.request;
      inFlightQueue := inFlightQueue + [r];
      submission := NoSubmission;
      accepted := accepted + [r];
      assert View() == Enqueue(before);
      ReachableStep(before, DoEnqueue);
      QueueBoundedAndReadyQuiet(View());
    }

    method IsIdle() returns (idle: bool)
      ensures idle <==> Quiet(View())
    {
      idle := inFlightQueue == [] && !threadActive;
    }

    /** The top of threadLoop: take the next request, if there is one. */
    method TakeRequest() returns (taken: bool)
      requires Valid() && location.AtWait?
      modifies this`currentFrame, this`finished, this`todo, this`inFlightQueue, this`threadActive, this`location
      ensures Valid()
      ensures taken <==> CanDequeue(old(View()))
      ensures View() == if taken then Dequeue(old(View())) else old(View())
      ensures taken ==> [Request(currentFrame, todo)] + inFlightQueue == old(inFlightQueue)
      ensures taken ==> finished == [] && threadActive
      ensures !taken ==> old(inFlightQueue) == [] == inFlightQueue && location == AtWait
    {
      ghost var before := View();
      taken := inFlightQueue != [];
      if taken {
        currentFrame, finished, todo := inFlightQueue[0].frame, [], inFlightQueue[0].buffers;
        inFlightQueue := inFlightQueue[1..];
        threadActive := true;
        location := AtSensor;
        ReachableStep(before, DoDequeue);
      }
    }

    /** waitForNewFrame. */
    method AwaitSensor(gotFrame: bool)
      requires Valid() && location.AtSensor?
      modifies this`location
      ensures Valid()
      ensures View() == if gotFrame then FrameArrived(old(View())) else old(View())
      ensures location == if gotFrame then AtLoop else AtSensor
    {
      ReachableStep(View(), DoFrame);
      if gotFrame {
        location := AtLoop;
      }
    }

    /** One turn of the buffer loop; runs says whether the compressor's thread would start. */
    method HandleBuffer(runs: bool)
      requires Valid() && location.AtLoop? && todo != []
      modifies this`todo, this`finished, this`jpegHalBuffer, this`jpegFrameNumber, this`jpegWaiting, this`compressor
      ensures Valid()
      ensures View() == Handle(old(View()), runs)
      ensures old(jpegWaiting) ==>
                jpegWaiting && jpegHalBuffer == old(jpegHalBuffer) && jpegFrameNumber == old(jpegFrameNumber)
      ensures todo == old(todo)[1..]
      ensures var b := old(todo)[0];
              var started := b.kind == Jpeg && !old(jpegWaiting) && old(compressor) == Reserved && runs;
              && (started ==>
                    && jpegWaiting && jpegHalBuffer == b && jpegFrameNumber == currentFrame
                    && finished == old(finished))
              && (compressor == if started then Compressing else old(compressor))
              && (!started ==>
                    jpegWaiting == old(jpegWaiting) && finished == old(finished) + [Finished(b, b.kind != Jpeg)])
    {
      ReachableStep(View(), DoHandle(runs));
      FinishOrCompress(runs);
    }

    method FinishOrCompress(runs: bool)
      requires CanHandle(View())
      modifies this`todo, this`finished, this`jpegHalBuffer, this`jpegFrameNumber, this`jpegWaiting, this`compressor
      ensures View() == Handle(old(View()), runs)
      ensures todo == old(todo)[1..]
      ensures var b := old(todo)[0];
              var started := b.kind == Jpeg && !old(jpegWaiting) && old(compressor) == Reserved && runs;
              && (started ==>
                    && jpegWaiting && jpegHalBuffer == b && jpegFrameNumber == currentFrame
                    && finished == old(finished))
              && (!started ==>
                    && jpegWaiting == old(jpegWaiting) && finished == old(finished) + [Finished(b, b.kind != Jpeg)]
                    && jpegHalBuffer == old(jpegHalBuffer) && jpegFrameNumber == old(jpegFrameNumber))
              && (compressor == if started then Compressing else old(compressor))
    {
      var b := todo[0];
      var goodBuffer := true;
      todo := todo[1..];
      if b.kind == Jpeg {
        if jpegWaiting {
          goodBuffer := false;
        }
        if goodBuffer {
          goodBuffer := compressor == Reserved && runs;
        }
        if goodBuffer {
          jpegHalBuffer, jpegFrameNumber, jpegWaiting := b, currentFrame, true;
          compressor := Compressing;
          return;
        }
      }
      finished := finished + [Finished(b, goodBuffer)];
    }

    /** After the loop: go inactive when nothing is queued. */
    method MaybeGoIdle() returns (signalIdle: bool)
      requires Valid() && location.AtLoop? && todo == []
      modifies this`threadActive, this`location
      ensures Valid()
      ensures View() == GoIdle(old(View()))
      ensures signalIdle <==> old(inFlightQueue) == []
      ensures threadActive == (old(threadActive) && !signalIdle) && location == if signalIdle then AtSignal else AtSend
    {
      ReachableStep(View(), DoGoIdle);
      signalIdle := inFlightQueue == [];
      if signalIdle {
        threadActive := false;
        location := AtSignal;
      } else {
        location := AtSend;
      }
    }

    /** signalReadoutIdle, from taking the parent lock to releasing it. */
    method SignalReadoutIdle()
      requires Valid() && location.AtSignal? && ParentLockFree(View())
      modifies this`location, this`sawIdle, this`status
      ensures Valid()
      ensures View() == SettleIdle(CheckIdle(LockForIdle(old(View()))))
      ensures status == Ready ==> inFlightQueue == [] && !threadActive
      ensures location == AtSend
      ensures status == if old(status) == Active && inFlightQueue == [] && !threadActive then Ready else old(status)
    {
      ghost var before := View();
      location := AtLocked;
      var idle := IsIdle();
      sawIdle := status == Active && idle;
      location := AtChecked;
      if sawIdle {
        status := Ready;
      }
      location := AtSend;
      IdleStepsReachable(before);
      QueueBoundedAndReadyQuiet(View());
    }

    /** sendCaptureResult for the request read out, and the clean-up after it. */
    method SendResult() returns (result: Result)
      requires Valid() && location.AtSend?
      modifies this`returned, this`location
      ensures Valid()
      ensures View() == Send(old(View()))
      ensures result == Result(old(currentFrame), true, old(finished))
      ensures MetadataFrames(returned) <= Frames(accepted)
      ensures forall i :: 0 <= i < |result.buffers| ==> LentUnder(result.frame, result.buffers[i].buffer)
      ensures returned == old(returned) + [result] && location == AtWait
      ensures forall i :: 0 <= i < |result.buffers| ==>
                (result.buffers[i].ok <==> result.buffers[i].buffer.kind != Jpeg)
    {
      ReachableStep(View(), DoSend);
      result := Result(currentFrame, true, finished);
      returned := returned + [result];
      location := AtWait;
      ValidPromises();
      LastResultIsOwn();
      ReturnedStatus(View(), |returned| - 1);
    }

    /** onJpegDone. */
    method OnJpegDone(success: bool) returns (result: Result)
      requires Valid() && CanFinishJpeg(View())
      modifies this`jpegWaiting, this`returned, this`compressor
      ensures Valid()
      ensures View() == FinishJpeg(old(View()), success)
      ensures result == Result(old(jpegFrameNumber), false, [Finished(old(jpegHalBuffer), success)])
      ensures LentUnder(result.frame, result.buffers[0].buffer)
      ensures returned == old(returned) + [result] && !jpegWaiting && compressor == Finishing
      ensures result.buffers[0].buffer.kind == Jpeg
    {
      ghost var before := View();
      jpegWaiting := false;
      result := Result(jpegFrameNumber, false, [Finished(jpegHalBuffer, success)]);
      returned := returned + [result];
      compressor := Finishing;
      ReachableStep(before, DoFinishJpeg(success));
      assert returned[|returned| - 1] == result;
      ReturnedUnderOwnFrame(View(), |returned| - 1, 0);
      ReturnedStatus(View(), |returned| - 1);
    }

    /** The compressor's cleanUp. */
    method ReleaseCompressor()
      requires Valid() && compressor == Finishing
      modifies this`compressor
      ensures Valid()
      ensures View() == CleanUp(old(View()))
      ensures compressor == Idle
    {
      ReachableStep(View(), DoCleanUp);
      compressor := Idle;
    }
  }
}
