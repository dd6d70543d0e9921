/**
 The HAL2 device as an object around the ring of the readout thread. The methods are the steps
 that touch the ring and the in-use check. Each is proved to be a step of the transition system
 of Hal2Pipeline and to keep the device in a reachable state.
 */
module Hal2Camera {
  import opened Hal2Ring
  import opened Hal2Pipeline

  // What a step may do to the configure stage: requests come in with nothing looked up, a capture
  // waits for room, a BLOB or reprocess request waits for the compressor, a failure keeps exactly
  // what was looked up, and the hand-over ends with nothing.
  predicate ConfigChange(a: Action, c: Config, c': Config) {
    && (a.Dequeue? ==> c' == Setup(a.request, 0))
    && (a.LookUp? ==> c.Setup? && c' == c.(got := c.got + 1))
    && (a.FinishSetup? ==>
          && c.Setup? && c'.Waiting? && c'.request == c.request && (c'.needsReadout <==> c.request.isCapture)
          && (!c'.needsJpeg <==> c.request.isCapture && !c.request.jpeg))
    && (a.FailSetup? ==>
          c.Setup? && c'.Failed? && (c.got <= |c.request.ids| ==> c'.left == c.request.ids[..c.got]))
    && (a.JpegReady? ==> c.Waiting? && c' == c.(needsJpeg := false))
    && (a.BeginHandoff? ==> c.Waiting? && c' == Fetching(c.request, 0))
    && (a.Fetch? ==> c.Fetching? && c' == c.(fetched := c.fetched + 1))
    && (a.ClearNext? ==> c' == Idle)
    && (a.Allocate? || a.BeginRelease? || a.GotFrame? || a.SendNext? || a.FailReadout? || a.ClearBuffers?
        || a.JpegDone? ==>
          c' == c)
  }

  // And to the readout stage: a request keeps its buffers until they are handed over.
  predicate ReadoutChange(a: Action, r: Readout, r': Readout) {
    && (a.GotFrame? ==> r.Exposing? && r' == Sending(r.entry, 0))
    && (a.SendNext? ==> r.Sending? && r' == r.(sent := r.sent + 1))
    && (a.FailReadout? ==> r.Sending? && r' == Broken(r.entry))
    && (a.ClearBuffers? ==> r.HandedOver? && r' == Finished)
    && (!a.GotFrame? && !a.SendNext? && !a.FailReadout? && !a.ClearBuffers? ==> r' == r)
  }

  // The steps that touch neither the ring nor the in-use check.
  predicate Plain(a: Action) {
    match a
    case CheckStage => false
    case Remove => false
    case ReadoutReady => false
    case Push => false
    case TakeNext => false
    case GoInactive => false
    case HandOver(_) => false
    case CountDown => false
    case _ => true
  }

  /** What each of them changes, and that it changes nothing else. */
  lemma PlainStep(s: State, a: Action)
    requires Enabled(s, a) && Plain(a)
    ensures var t := Apply(s, a);
            && t.streams == s.streams + (if a.Allocate? then {a.id} else {})
            && t.releaser == (if a.BeginRelease? then Checking(a.id, s.order) else s.releaser)
            && t.jpeg == (if a.JpegDone? then Ready else s.jpeg)
            && ConfigChange(a, s.config, t.config) && ReadoutChange(a, s.readout, t.readout)
            && t.ring == s.ring && t.active == s.active && t.count == s.count
            && t.queued == s.queued && t.taken == s.taken && t.dropped == s.dropped
  {
  }

  class Camera2 {
    const inFlight: ReadoutQueue
    var streams: set<int>
    var config: Config
    var readout: Readout
    var jpeg: Jpeg
    var releaser: Releaser
    ghost var queued: seq<Entry>
    ghost var taken: seq<Entry>
    ghost var dropped: seq<Entry>

    ghost predicate Shape()
      reads this, inFlight, inFlight.inFlightQueue
    {
      && inFlight.Valid()
      && (inFlight.current.None? <==> readout.Resting?)
      && (inFlight.current.Some? && !readout.Finished? ==> readout.entry == inFlight.current.value)
    }

    ghost function View(): State
      reads this, inFlight
    {
      State(streams, config, inFlight.queue, inFlight.active, inFlight.requestCount, readout, jpeg, releaser,
            PipelineOrder, queued, taken, dropped)
    }

    // Some interleaving of the threads and the caller of releaseStream leads here.
    ghost predicate Valid()
      reads this, inFlight, inFlight.inFlightQueue
    {
      Shape() && Reachable(PipelineOrder, View())
    }

    constructor ()
      ensures Valid() && fresh(inFlight) && fresh(inFlight.inFlightQueue)
      ensures View() == Initial(PipelineOrder)
    {
      inFlight := new ReadoutQueue();
      streams, config, readout, jpeg, releaser := {}, Idle, Resting, Ready, NoRelease;
      queued, taken, dropped := [], [], [];
      new;
      ReachableStart(PipelineOrder);
    }

    method Update(a: Action)
      requires Shape() && Enabled(View(), a) && Plain(a)
      modifies this`streams, this`config, this`readout, this`jpeg, this`releaser
      ensures Shape() && View() == Apply(old(View()), a)
    {
      match a
      case Allocate(id) => streams := streams + {id};
      case BeginRelease(id) => releaser := Checking(id, PipelineOrder);
      case Dequeue(r) => config := Setup(r, 0);
      case LookUp => config := Setup(config.request, config.got + 1);
      case FinishSetup =>
        var r := config.request;
        config := Waiting(r, r.isCapture, r.jpeg || !r.isCapture);
      case FailSetup => config := Failed(ConfigIds(config));
      case JpegReady => config := Waiting(config.request, false, false);
      case BeginHandoff => config := Fetching(config.request, 0);
      case Fetch => config := Fetching(config.request, config.fetched + 1);
      case ClearNext => config := Idle;
      case GotFrame => readout := Sending(readout.entry, 0);
      case SendNext(_) => readout := Sending(readout.entry, readout.sent + 1);
      case FailReadout => readout := Broken(readout.entry);
      case ClearBuffers => readout := Finished;
      case JpegDone => jpeg := Ready;
    }

    /** Each of them: a new stream or the start of a release under the device mutex, the
        configure thread's setup, waits and fetching, the readout thread's sending, and the
        compressor finishing. The streams looked up on the way are there. */
    method Advance(a: Action)
      requires Valid() && Enabled(View(), a) && Plain(a)
      modifies this`streams, this`config, this`readout, this`jpeg, this`releaser
      ensures Valid() && View() == Apply(old(View()), a)
      ensures streams == old(streams) + (if a.Allocate? then {a.id} else {})
      ensures releaser == if a.BeginRelease? then Checking(a.id, [ConfigureStage, ReadoutStage, JpegStage])
                          else old(releaser)
      ensures jpeg == if a.JpegDone? then Ready else old(jpeg)
      ensures ConfigChange(a, old(config), config) && ReadoutChange(a, old(readout), readout)
      ensures a.Fetch? ==> var id := old(config).request.ids[old(config).fetched]; id > 0 ==> id in streams
      ensures a.SendNext? ==> var id := old(readout).entry.buffers[old(readout).sent]; id > 0 ==> id in streams
    {
      LookedUp(a);
      PlainStep(View(), a);
      ReachableStep(PipelineOrder, View(), a);
      Update(a);
    }

    lemma LookedUp(a: Action)
      requires Valid() && Enabled(View(), a)
      ensures a.Fetch? ==> var id := config.request.ids[config.fetched]; id > 0 ==> id in streams
      ensures a.SendNext? ==> var id := readout.entry.buffers[readout.sent]; id > 0 ==> id in streams
    {
      if a.Fetch? && config.request.ids[config.fetched] > 0 {
        InFlightStreamsAreAllocated(View(), ConfigureStage, config.request.ids[config.fetched]);
      }
      if a.SendNext? && readout.entry.buffers[readout.sent] > 0 {
        InFlightStreamsAreAllocated(View(), ReadoutStage, readout.entry.buffers[readout.sent]);
      }
    }

    // The configure thread's wait for room.
    method WaitForReady() returns (ready: bool)
      requires Valid() && config.Waiting? && config.needsReadout
      modifies this`config
      ensures Valid() && (ready <==> Enabled(old(View()), ReadoutReady))
      ensures View() == if ready then Apply(old(View()), ReadoutReady) else old(View())
      ensures ready <==> |inFlight.queue| < 3
      ensures config == if ready then old(config).(needsReadout := false) else old(config)
    {
      ghost var before := View();
      ready := inFlight.ReadyForNextCapture();
      if ready {
        config := Waiting(config.request, false, config.needsJpeg);
      }
      if ready {
        ReachableStep(PipelineOrder, before, ReadoutReady);
      }
    }

    // setNextOperation as the configure thread calls it.
    method HandToReadout()
      requires Valid() && Enabled(View(), Push)
      modifies this`config, this`queued, this`dropped, inFlight, inFlight.inFlightQueue
      ensures Valid() && View() == Apply(old(View()), Push)
      ensures old(config.request.isCapture) ==>
                queued == old(queued) + [AsEntry(old(config.request))] && dropped == old(dropped)
      ensures |inFlight.queue| <= 3 && queued == taken + inFlight.queue
      ensures config == Pushed(old(config).request)
      ensures var r := old(config).request;
              var e := Entry(r.isCapture, r.number, r.ids, r.jpeg);
              if old(|inFlight.queue|) < 3 then inFlight.queue == old(inFlight.queue) + [e] && dropped == old(dropped)
              else inFlight.queue == old(inFlight.queue) && dropped == old(dropped) + [e]
    {
      ghost var before := View();
      var r := config.request;
      var pushed := inFlight.SetNextOperation(r.isCapture, r.number, r.ids, r.jpeg);
      if pushed {
        queued := queued + [AsEntry(r)];
      } else {
        dropped := dropped + [AsEntry(r)];
      }
      config := Pushed(r);
      ReachableStep(PipelineOrder, before, Push);
      CapturesAreNeverDropped(before);
      ReadoutIsFifo(View());
    }

    // The head of the readout loop.
    method NextToReadOut()
      requires Valid() && readout.Resting? && inFlight.active
      modifies this`readout, this`taken, inFlight, inFlight.inFlightQueue
      ensures Valid()
      ensures View() == Apply(old(View()), if old(inFlight.queue) == [] then GoInactive else TakeNext)
      ensures queued == taken + inFlight.queue
      ensures if old(inFlight.queue) == [] then readout == Resting && !inFlight.active
              else readout == Exposing(old(inFlight.queue)[0]) && inFlight.queue == old(inFlight.queue)[1..]
    {
      ghost var before := View();
      var work := inFlight.TakeNext();
      if work {
        readout := Exposing(inFlight.current.value);
        taken := taken + [inFlight.current.value];
      }
      ReachableStep(PipelineOrder, before, if before.ring == [] then GoInactive else TakeNext);
      ReadoutIsFifo(View());
    }

    // The JPEG compressor accepts or refuses; either way readout lets go of the buffers.
    method StartCompression(accepted: bool)
      requires Valid() && Enabled(View(), HandOver(accepted))
      modifies this`jpeg, this`readout
      ensures Valid() && View() == Apply(old(View()), HandOver(accepted))
      ensures jpeg == if accepted then Compressing(old(readout).entry.buffers) else old(jpeg)
      ensures readout == HandedOver(old(readout).entry)
    {
      ghost var before := View();
      if accepted {
        jpeg := Compressing(readout.entry.buffers);
      }
      readout := HandedOver(readout.entry);
      ReachableStep(PipelineOrder, before, HandOver(accepted));
    }

    method FinishReadout()
      requires Valid() && Enabled(View(), CountDown)
      modifies this`readout, inFlight
      ensures Valid() && View() == Apply(old(View()), CountDown)
      ensures inFlight.requestCount == |inFlight.queue|
      ensures readout == Resting && inFlight.queue == old(inFlight.queue)
    {
      ghost var before := View();
      inFlight.FinishCurrent();
      readout := Resting;
      ReachableStep(PipelineOrder, before, CountDown);
    }

    // One stage's isStreamInUse, a loop over what the stage has.
    method StageUses(stage: Stage, id: int) returns (used: bool)
      requires Valid() && Open(View(), stage)
      ensures used <==> Uses(View(), stage, id)
      ensures stage == ConfigureStage ==>
                (used <==> (config.Waiting? && id in config.request.ids) || (config.Failed? && id in config.left))
      ensures stage == ReadoutStage ==>
                (used <==> Carries(inFlight.queue, id)
                           || (inFlight.current.Some? && id in inFlight.current.value.buffers))
      ensures stage == JpegStage ==> (used <==> jpeg.Compressing? && id in jpeg.ids)
    {
      match stage
      case ConfigureStage => used := Mentions(ConfigIds(config), id);
      case ReadoutStage => used := inFlight.IsStreamInUse(id);
      case JpegStage => used := Mentions(JpegIds(jpeg), id);
    }

    // One of the three questions releaseStream asks.
    method AskStage()
      requires Valid() && Enabled(View(), CheckStage)
      modifies this`releaser
      ensures Valid() && View() == Apply(old(View()), CheckStage)
      ensures releaser == if Uses(old(View()), old(releaser).todo[0], old(releaser).id) then NoRelease
                           else Checking(old(releaser).id, old(releaser).todo[1..])
    {
      ghost var before := View();
      var used := StageUses(releaser.todo[0], releaser.id);
      releaser := if used then NoRelease else Checking(releaser.id, releaser.todo[1..]);
      ReachableStep(PipelineOrder, before, CheckStage);
    }

    method RemoveStream()
      requires Valid() && Enabled(View(), Remove)
      modifies this`streams, this`releaser
      ensures Valid() && View() == Apply(old(View()), Remove)
      ensures forall stage :: !Uses(View(), stage, old(releaser.id))
      ensures old(releaser).id !in streams && streams == old(streams) - {old(releaser).id} && releaser == NoRelease
    {
      ghost var before := View();
      streams := streams - {releaser.id};
      releaser := NoRelease;
      ReachableStep(PipelineOrder, before, Remove);
      forall stage ensures !Uses(before, stage, before.releaser.id) {
        RemovedStreamIsNowhere(before, stage);
      }
      assert forall stage :: Uses(View(), stage, before.releaser.id) == Uses(before, stage, before.releaser.id);
    }
  }

  method Mentions(ids: seq<int>, id: int) returns (found: bool)
    ensures found <==> id in ids
  {
    for i := 0 to |ids|
      invariant id !in ids[..i]
    {
      if ids[i] == id {
        return true;
      }
    }
    return false;
  }
}
