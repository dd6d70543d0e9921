/**
 The HAL2 capture pipeline: configure thread, in-flight queue, readout thread, JPEG compressor,
 and a caller that releases a stream while all of them are running. A step is what one thread
 does between two points where another can interfere. The caller of releaseStream holds the
 device mutex from its first check to the removal; the lookup of a stream needs that mutex.
 */
module Hal2Pipeline {
  import opened Hal2Ring

  // ids has the reprocess inputs, negated, and the output streams; jpeg says whether one of
  // the outputs is a BLOB.
  datatype Request = Request(isCapture: bool, number: nat, ids: seq<int>, jpeg: bool)

  function AsEntry(r: Request): Entry {
    Entry(r.isCapture, r.number, r.ids, r.jpeg)
  }

  // The configure thread. Setup, fetching and hand-over happen under its internals mutex.
  datatype Config =
    | Idle
    | Setup(request: Request, got: nat)
    | Waiting(request: Request, needsReadout: bool, needsJpeg: bool)
    | Fetching(request: Request, fetched: nat)
    | Pushed(request: Request)
    | Failed(left: seq<int>)

  // The readout thread. Everything from Sending to Finished happens under its internals mutex.
  datatype Readout =
    | Resting
    | Exposing(entry: Entry)
    | Sending(entry: Entry, sent: nat)
    | HandedOver(entry: Entry)
    | Finished
    | Broken(entry: Entry)

  datatype Jpeg = Ready | Compressing(ids: seq<int>)

  datatype Stage = ConfigureStage | ReadoutStage | JpegStage

  datatype Releaser = NoRelease | Checking(id: int, todo: seq<Stage>)

  datatype State = State(
    streams: set<int>, config: Config, ring: seq<Entry>, active: bool, count: int, readout: Readout, jpeg: Jpeg,
    releaser: Releaser, order: seq<Stage>,
    queued: seq<Entry>, taken: seq<Entry>, dropped: seq<Entry>)

  function Initial(order: seq<Stage>): State {
    State({}, Idle, [], false, 0, Resting, Ready, NoRelease, order, [], [], [])
  }

  // The order in which isStreamInUse asks the stages.
  const PipelineOrder: seq<Stage> := [ConfigureStage, ReadoutStage, JpegStage]

  // ----- What each stage answers to isStreamInUse -----

  function ConfigIds(c: Config): seq<int> {
    match c
    case Idle => []
    case Setup(r, got) => if got <= |r.ids| then r.ids[..got] else []
    case Waiting(r, _, _) => r.ids
    case Fetching(r, _) => r.ids
    case Pushed(r) => r.ids
    case Failed(left) => left
  }

  function ReadoutIds(r: Readout): seq<int> {
    match r
    case Resting => []
    case Exposing(e) => e.buffers
    case Sending(e, _) => e.buffers
    case HandedOver(e) => e.buffers
    case Finished => []
    case Broken(e) => e.buffers
  }

  function JpegIds(j: Jpeg): seq<int> {
    if j.Compressing? then j.ids else []
  }

  predicate Uses(s: State, stage: Stage, id: int) {
    match stage
    case ConfigureStage => id in ConfigIds(s.config)
    case ReadoutStage => Carries(s.ring, id) || id in ReadoutIds(s.readout)
    case JpegStage => id in JpegIds(s.jpeg)
  }

  // Whether the mutexes of a stage can be had.
  predicate Open(s: State, stage: Stage) {
    match stage
    case ConfigureStage => s.config.Idle? || s.config.Waiting? || s.config.Failed?
    case ReadoutStage => s.readout.Resting? || s.readout.Exposing? || s.readout.Broken?
    case JpegStage => true
  }

  // ----- Steps -----

  datatype Action =
    | Allocate(id: int)
    | BeginRelease(id: int)
    | CheckStage
    | Remove
    | Dequeue(request: Request)
    | LookUp
    | FinishSetup
    | FailSetup
    | ReadoutReady
    | JpegReady
    | BeginHandoff
    | Fetch
    | Push
    | ClearNext
    | TakeNext
    | GoInactive
    | GotFrame
    | SendNext(blob: bool)
    | FailReadout
    | HandOver(accepted: bool)
    | ClearBuffers
    | CountDown
    | JpegDone

  predicate Enabled(s: State, a: Action) {
    match a
    case Allocate(id) => s.releaser.NoRelease? && id > 0 && id !in s.streams
    case BeginRelease(id) => s.releaser.NoRelease? && id in s.streams
    case CheckStage => s.releaser.Checking? && s.releaser.todo != [] && Open(s, s.releaser.todo[0])
    case Remove => s.releaser.Checking? && s.releaser.todo == []
    case Dequeue(r) => s.config.Idle?
    case LookUp =>
      && s.config.Setup? && s.config.got < |s.config.request.ids| && s.releaser.NoRelease?
      && (var id := s.config.request.ids[s.config.got]; id <= 0 || id in s.streams)
    case FinishSetup => s.config.Setup? && s.config.got == |s.config.request.ids|
    case FailSetup => s.config.Setup?
    case ReadoutReady => s.config.Waiting? && s.config.needsReadout && |s.ring| < kInFlightQueueSize - 1
    case JpegReady => s.config.Waiting? && !s.config.needsReadout && s.config.needsJpeg && s.jpeg.Ready?
    case BeginHandoff => s.config.Waiting? && !s.config.needsReadout && !s.config.needsJpeg
    case Fetch => s.config.Fetching? && s.config.fetched < |s.config.request.ids| && s.releaser.NoRelease?
    case Push => s.config.Fetching? && (s.config.fetched > 0 || s.config.request.ids == [])
    case ClearNext => s.config.Pushed?
    case TakeNext => s.readout.Resting? && s.active && s.ring != []
    case GoInactive => s.readout.Resting? && s.active && s.ring == []
    case GotFrame => s.readout.Exposing?
    case SendNext(blob) =>
      && s.readout.Sending? && s.readout.sent < |s.readout.entry.buffers|
      && (s.readout.entry.buffers[s.readout.sent] <= 0
          || (if blob then s.readout.entry.blob else s.releaser.NoRelease?))
    case FailReadout => s.readout.Sending?
    case HandOver(accepted) =>
      && s.readout.Sending? && s.readout.sent == |s.readout.entry.buffers|
      && (accepted ==> s.readout.entry.blob && s.jpeg.Ready?)
    case ClearBuffers => s.readout.HandedOver?
    case CountDown => s.readout.Finished?
    case JpegDone => s.jpeg.Compressing?
  }

  function Apply(s: State, a: Action): State
    requires Enabled(s, a)
  {
    match a
    case Allocate(id) => s.(streams := s.streams + {id})
    case BeginRelease(id) => s.(releaser := Checking(id, s.order))
    case CheckStage =>
      s.(releaser := if Uses(s, s.releaser.todo[0], s.releaser.id) then NoRelease
                     else Checking(s.releaser.id, s.releaser.todo[1..]))
    case Remove => s.(streams := s.streams - {s.releaser.id}, releaser := NoRelease)
    case Dequeue(r) => s.(config := Setup(r, 0))
    case LookUp => s.(config := Setup(s.config.request, s.config.got + 1))
    case FinishSetup =>
      var r := s.config.request;
      s.(config := Waiting(r, r.isCapture, r.jpeg || !r.isCapture))
    case FailSetup => s.(config := Failed(ConfigIds(s.config)))
    case ReadoutReady => s.(config := Waiting(s.config.request, false, s.config.needsJpeg))
    case JpegReady => s.(config := Waiting(s.config.request, false, false))
    case BeginHandoff => s.(config := Fetching(s.config.request, 0))
    case Fetch => s.(config := Fetching(s.config.request, s.config.fetched + 1))
    case Push =>
      var e := AsEntry(s.config.request);
      if |s.ring| < kInFlightQueueSize - 1 then
        s.(ring := s.ring + [e], queued := s.queued + [e], count := s.count + 1, active := true,
            config := Pushed(s.config.request))
      else
        s.(dropped := s.dropped + [e], config := Pushed(s.config.request))
    case ClearNext => s.(config := Idle)
    case TakeNext => s.(readout := Exposing(s.ring[0]), ring := s.ring[1..], taken := s.taken + [s.ring[0]])
    case GoInactive => s.(active := false)
    case GotFrame => s.(readout := Sending(s.readout.entry, 0))
    case SendNext(blob) => s.(readout := Sending(s.readout.entry, s.readout.sent + 1))
    case FailReadout => s.(readout := Broken(s.readout.entry))
    case HandOver(accepted) =>
      s.(jpeg := if accepted then Compressing(s.readout.entry.buffers) else s.jpeg,
          readout := HandedOver(s.readout.entry))
    case ClearBuffers => s.(readout := Finished)
    case CountDown => s.(readout := Resting, count := s.count - 1)
    case JpegDone => s.(jpeg := Ready)
  }

  ghost predicate Runs(s: State, actions: seq<Action>)
    decreases |actions|
  {
    actions == [] || (Enabled(s, actions[0]) && Runs(Apply(s, actions[0]), actions[1..]))
  }

  ghost function After(s: State, actions: seq<Action>): State
    requires Runs(s, actions)
    decreases |actions|
  {
    if actions == [] then s else After(Apply(s, actions[0]), actions[1..])
  }

  ghost predicate Reachable(order: seq<Stage>, s: State) {
    exists actions: seq<Action> :: Runs(Initial(order), actions) && After(Initial(order), actions) == s
  }

  lemma {:induction false} RunMore(s: State, actions: seq<Action>, a: Action)
    requires Runs(s, actions) && Enabled(After(s, actions), a)
    ensures Runs(s, actions + [a]) && After(s, actions + [a]) == Apply(After(s, actions), a)
    decreases |actions|
  {
    if actions == [] {
      assert actions + [a] == [a];
      assert Runs(Apply(s, a), []);
    } else {
      assert (actions + [a])[0] == actions[0] && (actions + [a])[1..] == actions[1..] + [a];
      RunMore(Apply(s, actions[0]), actions[1..], a);
    }
  }

  lemma ReachableStep(order: seq<Stage>, s: State, a: Action)
    requires Reachable(order, s) && Enabled(s, a)
    ensures Reachable(order, Apply(s, a))
  {
    var actions: seq<Action> :| Runs(Initial(order), actions) && After(Initial(order), actions) == s;
    RunMore(Initial(order), actions, a);
  }

  lemma ReachableStart(order: seq<Stage>)
    ensures Reachable(order, Initial(order))
  {
    assert Runs(Initial(order), []) && After(Initial(order), []) == Initial(order);
  }

  // ----- Counts, room and order -----

  ghost predicate QueueInv(s: State) {
    && |s.ring| < kInFlightQueueSize
    && s.count == |s.ring| + (if s.readout.Resting? then 0 else 1)
    && (!s.active ==> s.ring == [] && s.readout.Resting?)
    && s.queued == s.taken + s.ring
  }

  // A capture that was told there is room still has it.
  ghost predicate RoomInv(s: State) {
    && (s.config.Waiting? && s.config.request.isCapture && !s.config.needsReadout ==> |s.ring| < kInFlightQueueSize - 1)
    && (s.config.Fetching? && s.config.request.isCapture ==> |s.ring| < kInFlightQueueSize - 1)
    && (forall i :: 0 <= i < |s.dropped| ==> !s.dropped[i].isCapture)
  }

  lemma QueueStep(s: State, a: Action)
    requires QueueInv(s) && Enabled(s, a)
    ensures QueueInv(Apply(s, a))
  {
    if a.TakeNext? {
      assert s.ring == [s.ring[0]] + s.ring[1..];
    }
  }

  lemma RoomStep(s: State, a: Action)
    requires RoomInv(s) && Enabled(s, a)
    ensures RoomInv(Apply(s, a))
  {
  }

  // ----- Ids in flight belong to allocated streams -----

  ghost predicate Known(streams: set<int>, ids: seq<int>) {
    forall i :: 0 <= i < |ids| ==> ids[i] <= 0 || ids[i] in streams
  }

  ghost predicate RingKnown(streams: set<int>, ring: seq<Entry>) {
    forall i :: 0 <= i < |ring| ==> Known(streams, ring[i].buffers)
  }

  ghost predicate StreamInv(s: State) {
    && Known(s.streams, ConfigIds(s.config)) && RingKnown(s.streams, s.ring)
    && Known(s.streams, ReadoutIds(s.readout)) && Known(s.streams, JpegIds(s.jpeg))
  }

  // The stages a release has asked already, in pipeline order, are clear of the stream, and
  // so they stay.
  ghost predicate ReleaseInv(s: State) {
    && s.order == PipelineOrder && (forall id :: id in s.streams ==> id > 0)
    && (s.releaser.Checking? ==>
        && s.releaser.id in s.streams
        && (s.releaser.todo == [ConfigureStage, ReadoutStage, JpegStage] || s.releaser.todo == [ReadoutStage, JpegStage]
            || s.releaser.todo == [JpegStage] || s.releaser.todo == [])
        && (ConfigureStage !in s.releaser.todo ==> !Uses(s, ConfigureStage, s.releaser.id))
        && (ReadoutStage !in s.releaser.todo ==> !Uses(s, ReadoutStage, s.releaser.id))
        && (JpegStage !in s.releaser.todo ==> !Uses(s, JpegStage, s.releaser.id)))
  }

  // Only a lookup brings a new id into the pipeline, and otherwise ids move forward only.
  lemma IdsMoveForward(s: State, a: Action, id: int)
    requires Enabled(s, a)
    ensures var t := Apply(s, a);
            && (Uses(t, ConfigureStage, id) ==> Uses(s, ConfigureStage, id) || a.LookUp?)
            && (Uses(t, ReadoutStage, id) ==> Uses(s, ReadoutStage, id) || (a.Push? && Uses(s, ConfigureStage, id)))
            && (Uses(t, JpegStage, id) ==> Uses(s, JpegStage, id) || (a.HandOver? && Uses(s, ReadoutStage, id)))
  {
  }

  lemma ReleaseStep(s: State, a: Action)
    requires ReleaseInv(s) && Enabled(s, a)
    ensures ReleaseInv(Apply(s, a))
  {
    if s.releaser.Checking? {
      IdsMoveForward(s, a, s.releaser.id);
    }
  }

  // Known, said through Uses.
  lemma KnownByUses(s: State, stage: Stage)
    requires StreamInv(s)
    ensures forall id :: id > 0 && Uses(s, stage, id) ==> id in s.streams
  {
  }

  lemma UsesGiveKnown(s: State)
    requires forall stage, id :: id > 0 && Uses(s, stage, id) ==> id in s.streams
    ensures StreamInv(s)
  {
    forall i | 0 <= i < |ConfigIds(s.config)|
        && ConfigIds(s.config)[i] > 0 ensures ConfigIds(s.config)[i] in s.streams {
      assert Uses(s, ConfigureStage, ConfigIds(s.config)[i]);
    }
    forall i, k | 0 <= i < |s.ring| && 0 <= k < |s.ring[i].buffers| && s.ring[i].buffers[k] > 0
      ensures s.ring[i].buffers[k] in s.streams
    {
      assert Uses(s, ReadoutStage, s.ring[i].buffers[k]);
    }
    forall i | 0 <= i < |ReadoutIds(s.readout)|
        && ReadoutIds(s.readout)[i] > 0 ensures ReadoutIds(s.readout)[i] in s.streams {
      assert Uses(s, ReadoutStage, ReadoutIds(s.readout)[i]);
    }
    forall i | 0 <= i < |JpegIds(s.jpeg)| && JpegIds(s.jpeg)[i] > 0 ensures JpegIds(s.jpeg)[i] in s.streams {
      assert Uses(s, JpegStage, JpegIds(s.jpeg)[i]);
    }
  }

  lemma LookUpBringsKnown(s: State, id: int)
    requires Enabled(s, LookUp) && id > 0 && Uses(Apply(s, LookUp), ConfigureStage, id)
    ensures Uses(s, ConfigureStage, id) || id in s.streams
  {
  }

  lemma StreamStep(s: State, a: Action)
    requires StreamInv(s) && ReleaseInv(s) && Enabled(s, a)
    ensures StreamInv(Apply(s, a))
  {
    var t := Apply(s, a);
    forall stage, id | id > 0 && Uses(t, stage, id) ensures id in t.streams {
      UsedIsKnown(s, a, stage, id);
    }
    UsesGiveKnown(t);
  }

  lemma UsedIsKnown(s: State, a: Action, stage: Stage, id: int)
    requires StreamInv(s) && ReleaseInv(s) && Enabled(s, a) && id > 0 && Uses(Apply(s, a), stage, id)
    ensures id in Apply(s, a).streams
  {
    IdsMoveForward(s, a, id);
    KnownByUses(s, ConfigureStage);
    KnownByUses(s, ReadoutStage);
    KnownByUses(s, JpegStage);
    if a.LookUp? && stage.ConfigureStage? {
      LookUpBringsKnown(s, id);
    }
  }

  ghost predicate Inv(s: State) {
    QueueInv(s) && RoomInv(s) && StreamInv(s) && ReleaseInv(s)
  }

  lemma {:induction false} RunKeeps(s: State, actions: seq<Action>)
    requires Inv(s) && Runs(s, actions)
    ensures Inv(After(s, actions))
    decreases |actions|
  {
    if actions != [] {
      QueueStep(s, actions[0]);
      RoomStep(s, actions[0]);
      StreamStep(s, actions[0]);
      ReleaseStep(s, actions[0]);
      RunKeeps(Apply(s, actions[0]), actions[1..]);
    }
  }

  lemma ReachableInv(s: State)
    requires Reachable(PipelineOrder, s)
    ensures Inv(s)
  {
    var actions: seq<Action> :| Runs(Initial(PipelineOrder), actions) && After(Initial(PipelineOrder), actions) == s;
    RunKeeps(Initial(PipelineOrder), actions);
  }

  // ----- What it is for -----

  /** When releaseStream comes to remove a stream, no stage has a buffer of it, although the
      stages were asked one after the other while all of them went on working. */
  lemma RemovedStreamIsNowhere(s: State, stage: Stage)
    requires Reachable(PipelineOrder, s) && Enabled(s, Remove)
    ensures !Uses(s, stage, s.releaser.id)
  {
    ReachableInv(s);
  }

  // The stream is neither allocated nor named in any stage.
  ghost predicate Gone(s: State, id: int) {
    id !in s.streams && forall stage :: !Uses(s, stage, id)
  }

  lemma GoneStep(s: State, a: Action, id: int)
    requires Gone(s, id) && id > 0 && Enabled(s, a) && a != Allocate(id)
    ensures Gone(Apply(s, a), id)
  {
    IdsMoveForward(s, a, id);
    if a.LookUp? && Uses(Apply(s, a), ConfigureStage, id) {
      LookUpBringsKnown(s, id);
    }
  }

  lemma {:induction false} GoneRun(s: State, actions: seq<Action>, id: int)
    requires Gone(s, id) && id > 0 && Runs(s, actions) && Allocate(id) !in actions
    ensures Gone(After(s, actions), id)
    decreases |actions|
  {
    if actions != [] {
      GoneStep(s, actions[0], id);
      GoneRun(Apply(s, actions[0]), actions[1..], id);
    }
  }

  /** A released stream is gone: its removal takes it and no other stream from the table, and on
      every run after that, until the id is given out again, it is not allocated and no stage
      has a buffer of it. */
  lemma ReleasedStreamIsGone(s: State, actions: seq<Action>)
    requires Reachable(PipelineOrder, s) && Enabled(s, Remove)
    requires Runs(Apply(s, Remove), actions) && Allocate(s.releaser.id) !in actions
    ensures forall id :: id in Apply(s, Remove).streams <==> id in s.streams && id != s.releaser.id
    ensures Gone(After(Apply(s, Remove), actions), s.releaser.id)
  {
    ReachableInv(s);
    var id := s.releaser.id;
    forall stage ensures !Uses(Apply(s, Remove), stage, id) {
      RemovedStreamIsNowhere(s, stage);
    }
    GoneRun(Apply(s, Remove), actions, id);
  }

  // A thread that gave up keeps the buffers it had.
  ghost predicate StuckIn(s: State, id: int) {
    (s.config.Failed? && id in s.config.left) || (s.readout.Broken? && id in s.readout.entry.buffers)
  }

  lemma StuckStep(s: State, a: Action, id: int)
    requires StuckIn(s, id) && id in s.streams && ReleaseInv(s) && Enabled(s, a)
    ensures StuckIn(Apply(s, a), id) && id in Apply(s, a).streams
  {
  }

  lemma {:induction false} StuckRun(s: State, actions: seq<Action>, id: int)
    requires StuckIn(s, id) && id in s.streams && ReleaseInv(s) && Runs(s, actions)
    ensures StuckIn(After(s, actions), id) && id in After(s, actions).streams
    decreases |actions|
  {
    if actions != [] {
      StuckStep(s, actions[0], id);
      ReleaseStep(s, actions[0]);
      StuckRun(Apply(s, actions[0]), actions[1..], id);
    }
  }

  /** The other side of the check: a stream named in a request on which the configure thread or
      the readout thread gave up can never be released again. */
  lemma FailedRequestKeepsItsStreams(s: State, actions: seq<Action>, id: int)
    requires Reachable(PipelineOrder, s) && StuckIn(s, id) && id > 0 && Runs(s, actions)
    ensures id in After(s, actions).streams
  {
    ReachableInv(s);
    var stage := if s.config.Failed? && id in s.config.left then ConfigureStage else ReadoutStage;
    InFlightStreamsAreAllocated(s, stage, id);
    StuckRun(s, actions, id);
  }

  /** On every run, every output stream named anywhere in the pipeline is allocated, so the
      lookups made while fetching, sending and after compressing find their stream. */
  lemma InFlightStreamsAreAllocated(s: State, stage: Stage, id: int)
    requires Reachable(PipelineOrder, s) && id > 0 && Uses(s, stage, id)
    ensures id in s.streams
  {
    ReachableInv(s);
    KnownByUses(s, stage);
  }

  /** Readout takes operations in the order they were queued, at most three wait, and the
      request count is the waiting ones plus the one being read out. */
  lemma ReadoutIsFifo(s: State)
    requires Reachable(PipelineOrder, s)
    ensures s.queued == s.taken + s.ring && |s.ring| <= 3
    ensures s.count == |s.ring| + (if s.readout.Resting? then 0 else 1)
    ensures !s.active ==> s.ring == [] && s.count == 0
  {
    ReachableInv(s);
  }

  /** No capture is ever dropped. */
  lemma CapturesAreNeverDropped(s: State)
    requires Reachable(PipelineOrder, s)
    ensures forall i :: 0 <= i < |s.dropped| ==> !s.dropped[i].isCapture
    ensures Enabled(s, Push) && s.config.request.isCapture ==> |s.ring| < kInFlightQueueSize - 1
  {
    ReachableInv(s);
  }
}
