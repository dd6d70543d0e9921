/**
 The two worker threads of a camera device as objects. Each method is one step of a thread,
 from one point where the other thread can interfere to the next. It is proved to be a step
 of the transition system of DoubleBuffer, and to keep the device in a reachable state.
 */
module CameraThreads {
  import opened DoubleBuffer

  /** CameraThread::FrameProducer with the WorkerThread fields it inherits. */
  class ProducerThread {
    const id: nat
    const size: nat
    const first: array<Cell>
    const second: array<Cell>
    var primaryBuffer: array<Cell>
    var secondaryBuffer: array<Cell>
    var primaryTimestamp: Stamp
    var secondaryTimestamp: Stamp
    var hasFrame: bool
    var bufferMutex: Holder
    var running: bool
    var oneBurst: bool
    var shown: nat
    var phase: Phase

    ghost predicate Shape()
      reads this
    {
      && first != second && first.Length == second.Length == size
      && (primaryBuffer == first || primaryBuffer == second)
      && secondaryBuffer == if primaryBuffer == first then second else first
    }

    ghost function View(): FrameProducer
      requires Shape()
      reads this, first, second
    {
      var index := if primaryBuffer == first then 0 else 1;
      FrameProducer(id, size, [first[..], second[..]], index, 1 - index, primaryTimestamp, secondaryTimestamp, shown,
                    hasFrame, bufferMutex, running, oneBurst, phase)
    }

    // The primary buffer shows a whole frame, and what was drawn of the next is in the other.
    ghost predicate Valid()
      reads this, first, second
    {
      Shape() && ProducerInv(View())
    }

    constructor (id: nat, size: nat, oneBurst: bool)
      ensures Valid() && fresh(first) && fresh(second)
      ensures View() == Started(id, size, oneBurst)
    {
      this.id, this.size, this.oneBurst := id, size, oneBurst;
      var a := new Cell[size](i => Blank);
      var b := new Cell[size](i => Blank);
      first, second, primaryBuffer, secondaryBuffer := a, b, a, b;
      primaryTimestamp, secondaryTimestamp, shown, hasFrame := NoStamp, NoStamp, 0, false;
      bufferMutex, running, phase := Nobody, true, Sleeping;
      new;
      assert first[..] == seq(size, i => Blank);
      assert second[..] == seq(size, i => Blank);
    }

    method StopThread()
      requires Valid()
      modifies this`running
      ensures Valid() && View() == StopProducer(old(View()))
      ensures !running
    {
      StopKeeps(View());
      running := false;
    }

    // The wait for the next frame, and the check that follows it.
    method WakeUp()
      requires Valid() && CanAct(View(), Wake)
      modifies this`phase
      ensures Valid() && View() == Act(old(View()), Wake)
      ensures phase == if running then Drawing({}, false) else Exited
    {
      ProducerKeeps(View(), Wake);
      phase := if running then Drawing({}, false) else Exited;
    }

    method DrawByte(k: nat)
      requires Valid() && CanAct(View(), DrawAt(k))
      modifies this`phase, secondaryBuffer
      ensures Valid() && View() == Act(old(View()), DrawAt(k))
      ensures secondaryBuffer[k] == Cell(id, shown + 1, k)
      ensures phase == Drawing(old(phase).done + {k}, old(phase).stamped)
      ensures forall j :: 0 <= j < size && j != k ==> secondaryBuffer[j] == old(secondaryBuffer[j])
    {
      ProducerKeeps(View(), DrawAt(k));
      secondaryBuffer[k] := Cell(id, shown + 1, k);
      phase := Drawing(phase.done + {k}, phase.stamped);
    }

    method WriteTimestamp()
      requires Valid() && CanAct(View(), WriteStamp)
      modifies this`secondaryTimestamp, this`phase
      ensures Valid() && View() == Act(old(View()), WriteStamp)
      ensures secondaryTimestamp == Stamp(id, shown + 1) && phase == Drawing(old(phase).done, true)
    {
      ProducerKeeps(View(), WriteStamp);
      secondaryTimestamp := Stamp(id, shown + 1);
      phase := Drawing(phase.done, true);
    }

    // What the producer function returned.
    method Produced(ok: bool)
      requires Valid() && CanAct(View(), if ok then FinishDrawing else FailToDraw)
      modifies this`phase
      ensures Valid() && View() == Act(old(View()), if ok then FinishDrawing else FailToDraw)
      ensures phase == if ok then Drawn else Exited
    {
      ProducerKeeps(View(), if ok then FinishDrawing else FailToDraw);
      phase := if ok then Drawn else Exited;
    }

    method TakeMutex()
      requires Valid() && CanAct(View(), LockForSwap)
      modifies this`bufferMutex, this`phase
      ensures Valid() && View() == Act(old(View()), LockForSwap)
      ensures bufferMutex == Producer && phase == Locked
    {
      ProducerKeeps(View(), LockForSwap);
      bufferMutex, phase := Producer, Locked;
    }

    method SwapBufferPointers()
      requires Valid() && CanAct(View(), SwapBuffers)
      modifies this`primaryBuffer, this`secondaryBuffer, this`shown, this`phase
      ensures Valid() && View() == Act(old(View()), SwapBuffers)
      ensures primaryBuffer[..] == Picture(size, id, shown)
      ensures primaryBuffer == old(secondaryBuffer) && secondaryBuffer == old(primaryBuffer) && shown == old(shown) + 1
    {
      ProducerKeeps(View(), SwapBuffers);
      primaryBuffer, secondaryBuffer := secondaryBuffer, primaryBuffer;
      shown, phase := shown + 1, HalfSwapped;
    }

    method SwapTimestamps()
      requires Valid() && CanAct(View(), SwapStamps)
      modifies this`primaryTimestamp, this`secondaryTimestamp, this`phase
      ensures Valid() && View() == Act(old(View()), SwapStamps)
      ensures primaryBuffer[..] == Picture(size, id, shown) && primaryTimestamp == Stamp(id, shown)
      ensures primaryTimestamp == old(secondaryTimestamp) && secondaryTimestamp == old(primaryTimestamp)
    {
      ProducerKeeps(View(), SwapStamps);
      primaryTimestamp, secondaryTimestamp := secondaryTimestamp, primaryTimestamp;
      phase := Swapped;
    }

    method ReleaseMutex()
      requires Valid() && CanAct(View(), UnlockSwapped)
      modifies this`bufferMutex, this`phase
      ensures Valid() && View() == Act(old(View()), UnlockSwapped)
      ensures bufferMutex == Nobody && phase == Announcing
    {
      ProducerKeeps(View(), UnlockSwapped);
      bufferMutex, phase := Nobody, Announcing;
    }

    method AnnounceFrame()
      requires Valid() && CanAct(View(), Announce)
      modifies this`hasFrame, this`phase
      ensures Valid() && View() == Act(old(View()), Announce)
      ensures hasFrame && phase == Looping
    {
      ProducerKeeps(View(), Announce);
      hasFrame, phase := true, Looping;
    }

    /** The end of WorkerThread::threadLoop: whether the thread goes round again. */
    method ThreadLoopEnd() returns (again: bool)
      requires Valid() && CanAct(View(), LoopOrExit)
      modifies this`phase
      ensures Valid() && View() == Act(old(View()), LoopOrExit)
      ensures again <==> phase == Sleeping
      ensures again <==> running && !oneBurst
      ensures phase == if again then Sleeping else Exited
    {
      ProducerKeeps(View(), LoopOrExit);
      again := !oneBurst && running;
      phase := if again then Sleeping else Exited;
    }

    // Any one of these steps.
    method Step(a: ProducerAction)
      requires Valid() && CanAct(View(), a)
      modifies this, first, second
      ensures Valid() && View() == Act(old(View()), a)
    {
      match a
      case Wake => WakeUp();
      case DrawAt(k) => DrawByte(k);
      case WriteStamp => WriteTimestamp();
      case FailToDraw => Produced(false);
      case FinishDrawing => Produced(true);
      case LockForSwap => TakeMutex();
      case SwapBuffers => SwapBufferPointers();
      case SwapStamps => SwapTimestamps();
      case UnlockSwapped => ReleaseMutex();
      case Announce => AnnounceFrame();
      case LoopOrExit => var _ := ThreadLoopEnd();
    }
  }

  /** CameraThread, with the history of what it delivered. */
  class DeviceThread {
    var producer: ProducerThread
    var phase: CameraPhase
    var running: bool
    var oneBurst: bool
    var restartRequested: bool
    var restartSize: nat
    var restartOneBurst: bool
    ghost var sizes: seq<nat>
    ghost var delivered: seq<Delivery>

    ghost function View(): State
      requires producer.Shape()
      reads this, producer, producer.first, producer.second
    {
      State(producer.View(), phase, running, oneBurst,
            if restartRequested then Restart(restartSize, restartOneBurst) else NoRestart, sizes, delivered)
    }

    // Some interleaving of the two threads and their callers leads here.
    ghost predicate Valid()
      reads this, producer, producer.first, producer.second
    {
      producer.Shape() && Reachable(View())
    }

    /** What that comes to: every frame delivered so far is one whole frame of one drawing with
        its own time, and none is older than one delivered before it. */
    lemma ValidPromises()
      requires Valid()
      ensures AllWhole(delivered, sizes) && InOrder(delivered)
      ensures phase.Copying? ==> producer.bufferMutex == Camera && producer.hasFrame
    {
      ReachableInv(View());
    }

    /** The thread starts and creates the first producer. */
    constructor (size: nat, oneBurst: bool)
      ensures Valid() && Initial(View())
    {
      producer := new ProducerThread(0, size, oneBurst);
      phase, running, this.oneBurst := Waiting(false), true, oneBurst;
      restartRequested, restartSize, restartOneBurst := false, 0, false;
      sizes, delivered := [size], [];
      new;
      assert View() == Beginning(size, oneBurst);
      assert Runs(View(), []) && After(View(), []) == View();
    }

    // A step of the producer thread, as part of the device.
    method RunProducer(a: ProducerAction)
      requires Valid() && Enabled(View(), ProducerStep(a))
      modifies producer, producer.first, producer.second
      ensures Valid() && View() == Apply(old(View()), ProducerStep(a))
      ensures phase.Copying? ==> Primary(producer.View()) == old(Primary(producer.View()))
    {
      ReachableInv(View());
      ProducerMovesForward(producer.View(), a);
      ReachableStep(View(), ProducerStep(a));
      producer.Step(a);
    }

    method RequestRestart(size: nat, oneBurst: bool)
      requires Valid()
      modifies this`restartRequested, this`restartSize, this`restartOneBurst
      ensures Valid() && View() == Apply(old(View()), AskRestart(size, oneBurst))
      ensures restartRequested && restartSize == size && restartOneBurst == oneBurst
    {
      ReachableStep(View(), AskRestart(size, oneBurst));
      restartSize, restartOneBurst := size, oneBurst;
      restartRequested := true;
    }

    // One turn of waitForFrameOrTimeout.
    method Poll()
      requires Valid() && Enabled(View(), PollFrame)
      modifies this`phase, producer`running
      ensures Valid() && View() == Apply(old(View()), PollFrame)
      ensures phase == if !running then Parting
                        else if !producer.hasFrame then old(phase)
                        else if old(phase).restarted then Ready else Checking
      ensures producer.running == (old(producer.running) && running)
    {
      ReachableInv(View());
      ReachableStep(View(), PollFrame);
      if !running {
        producer.StopThread();
        phase := Parting;
      } else if producer.hasFrame {
        phase := if phase.restarted then Ready else Checking;
      }
    }

    method CheckRestartRequest()
      requires Valid() && Enabled(View(), CheckRestart)
      modifies this`phase, this`restartRequested, producer`running
      ensures Valid() && View() == Apply(old(View()), CheckRestart)
      ensures phase == if old(restartRequested) then Joining(restartSize, restartOneBurst) else Ready
      ensures !restartRequested && producer.running == (old(producer.running) && !old(restartRequested))
    {
      ReachableInv(View());
      ReachableStep(View(), CheckRestart);
      if restartRequested {
        restartRequested := false;
        producer.StopThread();
        phase := Joining(restartSize, restartOneBurst);
      } else {
        phase := Ready;
      }
    }

    // The old producer has been joined, and the device is started again.
    method StartNewProducer()
      requires Valid() && Enabled(View(), ReplaceProducer)
      modifies this`producer, this`phase, this`oneBurst, this`sizes
      ensures Valid() && fresh(producer) && View() == Apply(old(View()), ReplaceProducer)
      ensures producer.id == old(producer.id) + 1 && producer.size == old(phase).size
      ensures producer.running && !producer.hasFrame
      ensures producer.oneBurst == old(phase).oneBurst == oneBurst && phase == Waiting(true)
    {
      ghost var before := View();
      var size, burst := phase.size, phase.oneBurst;
      producer := new ProducerThread(producer.id + 1, size, burst);
      oneBurst := burst;
      phase := Waiting(true);
      sizes := sizes + [size];
      assert View() == Apply(before, ReplaceProducer);
      ReachableStep(before, ReplaceProducer);
    }

    method LockCurrentFrame()
      requires Valid() && Enabled(View(), LockFrame)
      modifies this`phase, producer`bufferMutex
      ensures Valid() && View() == Apply(old(View()), LockFrame)
      ensures producer.bufferMutex == Camera && phase == Copying([], producer.primaryTimestamp)
    {
      ReachableStep(View(), LockFrame);
      producer.bufferMutex := Camera;
      phase := Copying([], producer.primaryTimestamp);
    }

    method CopyOneByte()
      requires Valid() && Enabled(View(), CopyByte)
      modifies this`phase
      ensures Valid() && View() == Apply(old(View()), CopyByte)
      ensures phase == Copying(old(phase).copy + [producer.primaryBuffer[|old(phase).copy|]], old(phase).stamp)
    {
      ReachableStep(View(), CopyByte);
      var n := |phase.copy|;
      phase := Copying(phase.copy + [producer.primaryBuffer[n]], phase.stamp);
    }

    method UnlockCurrentFrame()
      requires Valid() && Enabled(View(), UnlockFrame)
      modifies this`phase, this`delivered, producer`bufferMutex
      ensures Valid() && View() == Apply(old(View()), UnlockFrame)
      ensures Whole(delivered[|delivered| - 1], sizes) && InOrder(delivered)
      ensures producer.bufferMutex == Nobody && phase == Ready
      ensures delivered == old(delivered) + [Delivery(old(phase).copy, old(phase).stamp)]
    {
      ghost var before := View();
      producer.bufferMutex := Nobody;
      delivered := delivered + [Delivery(phase.copy, phase.stamp)];
      phase := Ready;
      assert View() == Apply(before, UnlockFrame);
      ReachableStep(before, UnlockFrame);
      ReachableInv(View());
    }

    method RoundOver()
      requires Valid() && Enabled(View(), NextRound)
      modifies this`phase, producer`running
      ensures Valid() && View() == Apply(old(View()), NextRound)
      ensures phase == if running && !oneBurst then Waiting(false) else Parting
      ensures producer.running == (old(producer.running) && phase != Parting)
    {
      ReachableInv(View());
      ReachableStep(View(), NextRound);
      if !oneBurst && running {
        phase := Waiting(false);
      } else {
        producer.StopThread();
        phase := Parting;
      }
    }

    method FinishDelivery()
      requires Valid() && Enabled(View(), FinishRound)
      modifies this`phase
      ensures Valid() && View() == Apply(old(View()), FinishRound)
      ensures phase == Rounding
    {
      ReachableStep(View(), FinishRound);
      phase := Rounding;
    }

    method StopThread()
      requires Valid()
      modifies this`running
      ensures Valid() && View() == Apply(old(View()), StopCamera)
      ensures !running
    {
      ReachableStep(View(), StopCamera);
      running := false;
    }

    // The device did not start again, or the thread has joined its producer and is done.
    method Exit()
      requires Valid() && (Enabled(View(), FailRestart) || Enabled(View(), Leave))
      modifies this`phase
      ensures Valid() && View() == Apply(old(View()), if old(phase.Joining?) then FailRestart else Leave)
      ensures phase == Gone
    {
      ReachableStep(View(), if phase.Joining? then FailRestart else Leave);
      phase := Gone;
    }
  }
}
