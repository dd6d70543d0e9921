/**
 Double-buffered frame production: the frame producer draws the secondary buffer without a
 lock and swaps it in under the buffer mutex; the camera thread copies the primary buffer
 under the same mutex, and replaces the producer when a restart was asked for.

 A byte of a frame is represented by its origin (which producer, which frame, which place),
 so a torn or stale copy is visible as a mixture of origins.
 */
module DoubleBuffer {

  datatype Cell = Blank | Cell(producer: nat, frame: nat, at: nat)

  datatype Stamp = NoStamp | Stamp(producer: nat, frame: nat)

  // The bytes of one whole frame.
  function Picture(size: nat, producer: nat, frame: nat): (r: seq<Cell>)
    ensures |r| == size
  {
    seq(size, i requires 0 <= i < size => Cell(producer, frame, i))
  }

  // ----- The frame producer -----

  datatype Holder = Nobody | Producer | Camera

  // Where the producer thread is in its loop.
  datatype Phase =
    | Sleeping
    | Drawing(done: set<nat>, stamped: bool)
    | Drawn
    | Locked
    | HalfSwapped
    | Swapped
    | Announcing
    | Looping
    | Exited

  datatype FrameProducer = FrameProducer(
    id: nat, size: nat, buffers: seq<seq<Cell>>, primary: nat, secondary: nat,
    primaryStamp: Stamp, secondaryStamp: Stamp, shown: nat, hasFrame: bool,
    mutex: Holder, running: bool, oneBurst: bool, phase: Phase)

  function Started(id: nat, size: nat, oneBurst: bool): FrameProducer {
    var blank := seq(size, i => Blank);
    FrameProducer(id, size, [blank, blank], 0, 1, NoStamp, NoStamp, 0, false, Nobody, true, oneBurst, Sleeping)
  }

  datatype ProducerAction =
    | Wake
    | DrawAt(k: nat)
    | WriteStamp
    | FailToDraw
    | FinishDrawing
    | LockForSwap
    | SwapBuffers
    | SwapStamps
    | UnlockSwapped
    | Announce
    | LoopOrExit

  predicate CanAct(p: FrameProducer, a: ProducerAction) {
    match a
    case Wake => p.phase.Sleeping?
    case DrawAt(k) => p.phase.Drawing? && k < p.size
    case WriteStamp => p.phase.Drawing?
    case FailToDraw => p.phase.Drawing?
    case FinishDrawing => p.phase.Drawing? && p.phase.stamped && forall k: nat :: k < p.size ==> k in p.phase.done
    case LockForSwap => p.phase.Drawn? && p.mutex == Nobody
    case SwapBuffers => p.phase.Locked?
    case SwapStamps => p.phase.HalfSwapped?
    case UnlockSwapped => p.phase.Swapped?
    case Announce => p.phase.Announcing?
    case LoopOrExit => p.phase.Looping?
  }

  function Write(buffers: seq<seq<Cell>>, b: nat, k: nat, c: Cell): seq<seq<Cell>> {
    if b < |buffers| && k < |buffers[b]| then buffers[b := buffers[b][k := c]] else buffers
  }

  function Act(p: FrameProducer, a: ProducerAction): FrameProducer
    requires CanAct(p, a)
  {
    match a
    case Wake => p.(phase := if p.running then Drawing({}, false) else Exited)
    case DrawAt(k) =>
      p.(buffers := Write(p.buffers, p.secondary, k, Cell(p.id, p.shown + 1, k)),
         phase := Drawing(p.phase.done + {k}, p.phase.stamped))
    case WriteStamp => p.(secondaryStamp := Stamp(p.id, p.shown + 1), phase := Drawing(p.phase.done, true))
    case FailToDraw => p.(phase := Exited)
    case FinishDrawing => p.(phase := Drawn)
    case LockForSwap => p.(mutex := Producer, phase := Locked)
    case SwapBuffers => p.(primary := p.secondary, secondary := p.primary, shown := p.shown + 1, phase := HalfSwapped)
    case SwapStamps => p.(primaryStamp := p.secondaryStamp, secondaryStamp := p.primaryStamp, phase := Swapped)
    case UnlockSwapped => p.(mutex := Nobody, phase := Announcing)
    case Announce => p.(hasFrame := true, phase := Looping)
    case LoopOrExit => p.(phase := if p.oneBurst || !p.running then Exited else Sleeping)
  }

  // ----- The camera thread -----

  datatype CameraPhase =
    | Waiting(restarted: bool)
    | Checking
    | Joining(size: nat, oneBurst: bool)
    | Ready
    | Copying(copy: seq<Cell>, stamp: Stamp)
    | Rounding
    | Parting
    | Gone

  datatype Restart = NoRestart | Restart(size: nat, oneBurst: bool)

  datatype Delivery = Delivery(copy: seq<Cell>, stamp: Stamp)

  // sizes has the frame size of every producer started so far, the current one last.
  datatype State = State(
    producer: FrameProducer, phase: CameraPhase, running: bool, oneBurst: bool,
    restart: Restart, sizes: seq<nat>, delivered: seq<Delivery>)

  datatype Action =
    | ProducerStep(a: ProducerAction)
    | AskRestart(size: nat, oneBurst: bool)
    | StopCamera
    | PollFrame
    | CheckRestart
    | ReplaceProducer
    | FailRestart
    | LockFrame
    | CopyByte
    | UnlockFrame
    | FinishRound
    | NextRound
    | Leave

  predicate Enabled(s: State, a: Action) {
    match a
    case ProducerStep(pa) => CanAct(s.producer, pa)
    case AskRestart(size, oneBurst) => true
    case StopCamera => true
    case PollFrame => s.phase.Waiting?
    case CheckRestart => s.phase.Checking?
    case ReplaceProducer => s.phase.Joining? && s.producer.phase.Exited?
    case FailRestart => s.phase.Joining? && s.producer.phase.Exited?
    case LockFrame => s.phase.Ready? && s.producer.mutex == Nobody
    case CopyByte => s.phase.Copying? && |s.phase.copy| < s.producer.size
    case UnlockFrame => s.phase.Copying? && |s.phase.copy| == s.producer.size
    case FinishRound => s.phase.Ready?
    case NextRound => s.phase.Rounding?
    case Leave => s.phase.Parting? && s.producer.phase.Exited?
  }

  function Primary(p: FrameProducer): seq<Cell> {
    if p.primary < |p.buffers| then p.buffers[p.primary] else []
  }

  function Secondary(p: FrameProducer): seq<Cell> {
    if p.secondary < |p.buffers| then p.buffers[p.secondary] else []
  }

  function Byte(b: seq<Cell>, k: nat): Cell {
    if k < |b| then b[k] else Blank
  }

  function StopProducer(p: FrameProducer): FrameProducer {
    p.(running := false)
  }

  function Apply(s: State, a: Action): State
    requires Enabled(s, a)
  {
    match a
    case ProducerStep(pa) => s.(producer := Act(s.producer, pa))
    case AskRestart(size, oneBurst) => s.(restart := Restart(size, oneBurst))
    case StopCamera => s.(running := false)
    case PollFrame =>
      if !s.running then s.(phase := Parting, producer := StopProducer(s.producer))
      else if !s.producer.hasFrame then s
      else s.(phase := if s.phase.restarted then Ready else Checking)
    case CheckRestart =>
      (match s.restart
       case NoRestart => s.(phase := Ready)
       case Restart(size, oneBurst) =>
         s.(restart := NoRestart, producer := StopProducer(s.producer), phase := Joining(size, oneBurst)))
    case ReplaceProducer =>
      s.(producer := Started(s.producer.id + 1, s.phase.size, s.phase.oneBurst), sizes := s.sizes + [s.phase.size],
         oneBurst := s.phase.oneBurst, phase := Waiting(true))
    case FailRestart => s.(phase := Gone)
    case LockFrame => s.(producer := s.producer.(mutex := Camera), phase := Copying([], s.producer.primaryStamp))
    case CopyByte =>
      s.(phase := Copying(s.phase.copy + [Byte(Primary(s.producer), |s.phase.copy|)], s.phase.stamp))
    case UnlockFrame =>
      s.(producer := s.producer.(mutex := Nobody), delivered := s.delivered + [Delivery(s.phase.copy, s.phase.stamp)],
         phase := Ready)
    case FinishRound => s.(phase := Rounding)
    case NextRound =>
      if s.oneBurst || !s.running then s.(phase := Parting, producer := StopProducer(s.producer))
      else s.(phase := Waiting(false))
    case Leave => s.(phase := Gone)
  }

  ghost predicate Initial(s: State) {
    exists size: nat, oneBurst: bool :: s == Beginning(size, oneBurst)
  }

  function Beginning(size: nat, oneBurst: bool): State {
    State(Started(0, size, oneBurst), Waiting(false), true, oneBurst, NoRestart, [size], [])
  }

  // ----- Runs -----

  ghost predicate Runs(s: State, actions: seq<Action>)
    decreases |actions|
  {
    actions == [] || (Enabled(s, actions[0]) && Runs(Apply(s, actions[0]), actions[1..]))
  }

  ghost function After(s: State, actions: seq<Action>): State
    requires Runs(s, actions)
    decreases |actions|
  {
    if actions == [] then s else After(Apply(s, actions[0]), actions[1..])
  }

  ghost predicate Reachable(s: State) {
    exists start: State, actions: seq<Action> :: Initial(start) && Runs(start, actions) && After(start, actions) == s
  }

  lemma {:induction false} RunMore(s: State, actions: seq<Action>, a: Action)
    requires Runs(s, actions) && Enabled(After(s, actions), a)
    ensures Runs(s, actions + [a]) && After(s, actions + [a]) == Apply(After(s, actions), a)
    decreases |actions|
  {
    if actions == [] {
      assert actions + [a] == [a];
      assert Runs(Apply(s, a), []);
    } else {
      assert (actions + [a])[0] == actions[0] && (actions + [a])[1..] == actions[1..] + [a];
      RunMore(Apply(s, actions[0]), actions[1..], a);
    }
  }

  lemma ReachableStep(s: State, a: Action)
    requires Reachable(s) && Enabled(s, a)
    ensures Reachable(Apply(s, a))
  {
    var start: State, actions: seq<Action> :| Initial(start) && Runs(start, actions) && After(start, actions) == s;
    RunMore(start, actions, a);
  }

  // ----- The invariant -----

  ghost predicate TwoBuffers(p: FrameProducer) {
    && |p.buffers| == 2 && |p.buffers[0]| == |p.buffers[1]| == p.size
    && p.primary < 2 && p.secondary == 1 - p.primary
  }

  ghost predicate MutexHeld(p: FrameProducer) {
    p.mutex == Producer <==> p.phase.Locked? || p.phase.HalfSwapped? || p.phase.Swapped?
  }

  // The primary buffer shows a whole frame, with its own time outside of the swap.
  ghost predicate FrontWhole(p: FrameProducer) {
    && (p.hasFrame ==> p.shown > 0)
    && (p.shown > 0 ==>
        && Primary(p) == Picture(p.size, p.id, p.shown)
        && (if p.phase.HalfSwapped? then p.secondaryStamp else p.primaryStamp) == Stamp(p.id, p.shown))
    && (p.phase.HalfSwapped? || p.phase.Swapped? || p.phase.Announcing? ==> p.shown > 0)
  }

  // What was drawn so far of the next frame is in the secondary buffer.
  ghost predicate BackDrawn(p: FrameProducer) {
    match p.phase
    case Drawing(done, stamped) =>
      && (forall k: nat :: k in done && k < |Secondary(p)| ==> Secondary(p)[k] == Cell(p.id, p.shown + 1, k))
      && (stamped ==> p.secondaryStamp == Stamp(p.id, p.shown + 1))
    case Drawn => Secondary(p) == Picture(p.size, p.id, p.shown + 1) && p.secondaryStamp == Stamp(p.id, p.shown + 1)
    case Locked => Secondary(p) == Picture(p.size, p.id, p.shown + 1) && p.secondaryStamp == Stamp(p.id, p.shown + 1)
    case _ => true
  }

  ghost predicate ProducerInv(p: FrameProducer) {
    TwoBuffers(p) && MutexHeld(p) && FrontWhole(p) && BackDrawn(p)
  }

  ghost predicate CameraInv(s: State) {
    && (s.producer.mutex == Camera <==> s.phase.Copying?)
    && (s.phase.Checking? || s.phase.Ready? || s.phase.Copying? ==> s.producer.hasFrame)
    && (s.phase.Copying? ==>
        && |s.phase.copy| <= s.producer.size
        && s.phase.copy == Picture(|s.phase.copy|, s.producer.id, s.producer.shown)
        && s.phase.stamp == Stamp(s.producer.id, s.producer.shown))
  }

  // A delivery is one whole frame of one producer, with that frame's own time.
  ghost predicate Whole(d: Delivery, sizes: seq<nat>) {
    && d.stamp.Stamp? && d.stamp.producer < |sizes|
    && d.copy == Picture(sizes[d.stamp.producer], d.stamp.producer, d.stamp.frame)
  }

  ghost predicate NotAfter(a: Stamp, b: Stamp) {
    a.Stamp? && b.Stamp? && (a.producer < b.producer || (a.producer == b.producer && a.frame <= b.frame))
  }

  ghost predicate AllWhole(deliveries: seq<Delivery>, sizes: seq<nat>) {
    forall i :: 0 <= i < |deliveries| ==> Whole(deliveries[i], sizes)
  }

  ghost predicate NoneAfter(deliveries: seq<Delivery>, latest: Stamp) {
    forall i :: 0 <= i < |deliveries| ==> NotAfter(deliveries[i].stamp, latest)
  }

  ghost predicate InOrder(deliveries: seq<Delivery>) {
    forall i, j :: 0 <= i <= j < |deliveries| ==> NotAfter(deliveries[i].stamp, deliveries[j].stamp)
  }

  ghost predicate HistoryInv(s: State) {
    && |s.sizes| == s.producer.id + 1 && s.sizes[s.producer.id] == s.producer.size
    && AllWhole(s.delivered, s.sizes)
    && NoneAfter(s.delivered, Stamp(s.producer.id, s.producer.shown))
    && InOrder(s.delivered)
  }

  ghost predicate Inv(s: State) {
    ProducerInv(s.producer) && CameraInv(s) && HistoryInv(s)
  }

  // ----- Every step keeps it -----

  lemma DrawKeeps(p: FrameProducer, k: nat)
    requires ProducerInv(p) && CanAct(p, DrawAt(k))
    ensures ProducerInv(Act(p, DrawAt(k))) && Primary(Act(p, DrawAt(k))) == Primary(p)
  {
  }

  lemma FinishKeeps(p: FrameProducer)
    requires ProducerInv(p) && CanAct(p, FinishDrawing)
    ensures ProducerInv(Act(p, FinishDrawing))
  {
    assert Secondary(p) == Picture(p.size, p.id, p.shown + 1);
  }

  lemma ProducerKeeps(p: FrameProducer, a: ProducerAction)
    requires ProducerInv(p) && CanAct(p, a)
    ensures ProducerInv(Act(p, a))
  {
    match a
    case DrawAt(k) => DrawKeeps(p, k);
    case FinishDrawing => FinishKeeps(p);
    case _ =>
  }

  // What the camera thread may rely on: frames only move forward, and nothing it reads under
  // the mutex is touched.
  lemma ProducerMovesForward(p: FrameProducer, a: ProducerAction)
    requires ProducerInv(p) && CanAct(p, a)
    ensures var q := Act(p, a);
            && q.id == p.id && q.size == p.size && p.shown <= q.shown && (p.hasFrame ==> q.hasFrame)
            && (q.mutex == Camera <==> p.mutex == Camera)
            && (p.mutex == Camera ==> q.shown == p.shown && q.primary == p.primary && Primary(q) == Primary(p)
                                      && q.primaryStamp == p.primaryStamp)
  {
  }

  lemma ProducerStepKeeps(s: State, a: ProducerAction)
    requires Inv(s) && CanAct(s.producer, a)
    ensures Inv(Apply(s, ProducerStep(a)))
  {
    ProducerKeeps(s.producer, a);
    ProducerMovesForward(s.producer, a);
  }

  lemma CopyKeeps(s: State)
    requires Inv(s) && Enabled(s, CopyByte)
    ensures Inv(Apply(s, CopyByte))
  {
  }

  lemma DeliveryKeeps(s: State)
    requires Inv(s) && Enabled(s, UnlockFrame)
    ensures Inv(Apply(s, UnlockFrame))
  {
  }

  lemma ReplaceKeeps(s: State)
    requires Inv(s) && Enabled(s, ReplaceProducer)
    ensures Inv(Apply(s, ReplaceProducer))
  {
  }

  lemma OtherKeeps(s: State, a: Action)
    requires Inv(s) && Enabled(s, a)
    requires a.LockFrame? || a.AskRestart? || a.StopCamera? || a.FailRestart? || a.FinishRound? || a.Leave?
    ensures Inv(Apply(s, a))
  {
  }

  lemma StopKeeps(p: FrameProducer)
    requires ProducerInv(p)
    ensures ProducerInv(StopProducer(p))
  {
  }

  lemma WaitKeeps(s: State, a: Action)
    requires Inv(s) && Enabled(s, a) && (a.PollFrame? || a.CheckRestart? || a.NextRound?)
    ensures Inv(Apply(s, a))
  {
    StopKeeps(s.producer);
  }

  lemma StepKeeps(s: State, a: Action)
    requires Inv(s) && Enabled(s, a)
    ensures Inv(Apply(s, a))
  {
    match a
    case ProducerStep(pa) => ProducerStepKeeps(s, pa);
    case CopyByte => CopyKeeps(s);
    case UnlockFrame => DeliveryKeeps(s);
    case ReplaceProducer => ReplaceKeeps(s);
    case PollFrame => WaitKeeps(s, a);
    case CheckRestart => WaitKeeps(s, a);
    case NextRound => WaitKeeps(s, a);
    case _ => OtherKeeps(s, a);
  }

  lemma {:induction false} RunKeeps(s: State, actions: seq<Action>)
    requires Inv(s) && Runs(s, actions)
    ensures Inv(After(s, actions))
    decreases |actions|
  {
    if actions != [] {
      StepKeeps(s, actions[0]);
      RunKeeps(Apply(s, actions[0]), actions[1..]);
    }
  }

  lemma InitialInv(size: nat, oneBurst: bool)
    ensures Inv(Beginning(size, oneBurst))
  {
  }

  lemma ReachableInv(s: State)
    requires Reachable(s)
    ensures Inv(s)
  {
    var start: State, actions: seq<Action> :| Initial(start) && Runs(start, actions) && After(start, actions) == s;
    var size: nat, oneBurst: bool :| start == Beginning(size, oneBurst);
    InitialInv(size, oneBurst);
    RunKeeps(start, actions);
  }

  // ----- What it is for -----

  /** In every reachable state primary and secondary are the two buffers the producer was
      given, and they are distinct. */
  lemma BuffersStayApart(s: State)
    requires Reachable(s)
    ensures |s.producer.buffers| == 2 && {s.producer.primary, s.producer.secondary} == {0, 1}
    ensures |s.producer.buffers[0]| == |s.producer.buffers[1]| == s.producer.size
  {
    ReachableInv(s);
  }

  ghost predicate SameFront(s: State, t: State) {
    && s.phase.Copying? && t.phase.Copying? && t.phase.stamp == s.phase.stamp
    && t.producer.id == s.producer.id && t.producer.primary == s.producer.primary
    && Primary(t.producer) == Primary(s.producer) && t.producer.primaryStamp == s.producer.primaryStamp
  }

  lemma LockedStep(s: State, a: Action)
    requires Inv(s) && s.phase.Copying? && Enabled(s, a) && a != UnlockFrame
    ensures SameFront(s, Apply(s, a))
  {
  }

  lemma {:induction false} LockedRun(s: State, actions: seq<Action>)
    requires Inv(s) && s.phase.Copying? && Runs(s, actions) && UnlockFrame !in actions
    ensures SameFront(s, After(s, actions))
    decreases |actions|
  {
    if actions != [] {
      StepKeeps(s, actions[0]);
      LockedStep(s, actions[0]);
      LockedRun(Apply(s, actions[0]), actions[1..]);
    }
  }

  /** However the run goes on, until the camera thread lets go of the frame lock neither the
      choice of the primary buffer, nor its contents, nor its time changes. */
  lemma LockedFrameStays(s: State, actions: seq<Action>)
    requires Reachable(s) && s.phase.Copying? && Runs(s, actions) && UnlockFrame !in actions
    ensures SameFront(s, After(s, actions))
  {
    ReachableInv(s);
    LockedRun(s, actions);
  }

  /** Every frame delivered on any run is one whole frame: all its bytes come from the same
      drawing by the same producer, none is missing, and the time is that drawing's. */
  lemma DeliveriesAreWhole(s: State, i: nat)
    requires Reachable(s) && i < |s.delivered|
    ensures Whole(s.delivered[i], s.sizes)
  {
    ReachableInv(s);
  }

  /** A frame handed over now is one of the producer running now, and as new as any that was
      on show when the lock was taken. */
  lemma DeliveryIsCurrent(s: State)
    requires Reachable(s) && Enabled(s, UnlockFrame)
    ensures var d := Apply(s, UnlockFrame).delivered[|s.delivered|];
            && d.stamp == Stamp(s.producer.id, s.producer.shown)
            && d.copy == Picture(s.producer.size, s.producer.id, s.producer.shown)
  {
    ReachableInv(s);
  }

  /** Deliveries never go back in time, not even across a restart. */
  lemma DeliveriesInOrder(s: State, i: nat, j: nat)
    requires Reachable(s) && i <= j < |s.delivered|
    ensures NotAfter(s.delivered[i].stamp, s.delivered[j].stamp)
  {
    ReachableInv(s);
  }

  // ----- Stopping: the running and one-burst rules -----

  // Frames a stopped producer can still put on show.
  function Pending(p: FrameProducer): nat {
    if p.phase.Drawing? || p.phase.Drawn? || p.phase.Locked? then 1 else 0
  }

  lemma StoppedAct(p: FrameProducer, a: ProducerAction)
    requires !p.running && CanAct(p, a)
    ensures var q := Act(p, a); q.id == p.id && !q.running && q.shown + Pending(q) <= p.shown + Pending(p)
  {
  }

  lemma StoppedStep(s: State, a: Action)
    requires !s.producer.running && Enabled(s, a) && a != ReplaceProducer
    ensures var t := Apply(s, a);
            t.producer.id == s.producer.id && !t.producer.running
            && t.producer.shown + Pending(t.producer) <= s.producer.shown + Pending(s.producer)
  {
    if a.ProducerStep? {
      StoppedAct(s.producer, a.a);
    }
  }

  /** Once told to stop, a producer shows at most the frame it was working on. */
  lemma {:induction false} StoppedShowsAtMostOneMore(s: State, actions: seq<Action>)
    requires !s.producer.running && Runs(s, actions) && ReplaceProducer !in actions
    ensures var t := After(s, actions);
            t.producer.id == s.producer.id && !t.producer.running
            && t.producer.shown + Pending(t.producer) <= s.producer.shown + Pending(s.producer)
    decreases |actions|
  {
    if actions != [] {
      StoppedStep(s, actions[0]);
      StoppedShowsAtMostOneMore(Apply(s, actions[0]), actions[1..]);
    }
  }

  ghost predicate BurstInv(p: FrameProducer) {
    && (p.shown == 0 || p.phase.HalfSwapped? || p.phase.Swapped? || p.phase.Announcing? || p.phase.Looping?
        || p.phase.Exited?
        || !p.oneBurst)
    && (p.oneBurst ==> p.shown <= 1)
  }

  lemma {:induction false} BurstRun(s: State, actions: seq<Action>)
    requires BurstInv(s.producer) && Runs(s, actions)
    ensures BurstInv(After(s, actions).producer)
    decreases |actions|
  {
    if actions != [] {
      BurstRun(Apply(s, actions[0]), actions[1..]);
    }
  }

  /** A producer started for one burst shows at most one frame. */
  lemma OneBurstShowsOneFrame(s: State)
    requires Reachable(s) && s.producer.oneBurst
    ensures s.producer.shown <= 1
  {
    var start: State, actions: seq<Action> :| Initial(start) && Runs(start, actions) && After(start, actions) == s;
    BurstRun(start, actions);
  }

  // ----- The camera thread's rounds -----

  // The camera thread is on its way out.
  predicate Leaving(p: CameraPhase) {
    p.Rounding? || p.Parting? || p.Gone?
  }

  lemma LeavingStep(s: State, a: Action)
    requires s.oneBurst && Leaving(s.phase) && Enabled(s, a)
    ensures var t := Apply(s, a); t.oneBurst && Leaving(t.phase) && t.delivered == s.delivered
  {
  }

  /** A camera thread started for one burst does one round: once it is over, on every run nothing
      more is delivered and the thread does not go back to waiting. */
  lemma {:induction false} OneBurstDoesOneRound(s: State, actions: seq<Action>)
    requires s.oneBurst && Leaving(s.phase) && Runs(s, actions)
    ensures var t := After(s, actions); Leaving(t.phase) && t.delivered == s.delivered
    decreases |actions|
  {
    if actions != [] {
      LeavingStep(s, actions[0]);
      OneBurstDoesOneRound(Apply(s, actions[0]), actions[1..]);
    }
  }

  /** Whether there is another round: exactly while the thread is running and not one burst. */
  lemma AnotherRoundIff(s: State)
    requires s.phase.Rounding?
    ensures Enabled(s, NextRound)
    ensures Apply(s, NextRound).phase == Waiting(false) <==> s.running && !s.oneBurst
    ensures Apply(s, NextRound).phase != Waiting(false) ==> !Apply(s, NextRound).producer.running
  {
  }

  // A restart is under way.
  lemma JoiningStep(s: State, a: Action)
    requires s.phase.Joining? && Enabled(s, a)
    ensures var t := Apply(s, a);
            && t.delivered == s.delivered
            && (a == ReplaceProducer ==>
                  && t.producer.id == s.producer.id + 1 && t.producer.size == s.phase.size && t.producer.running
                  && t.producer.oneBurst == s.phase.oneBurst == t.oneBurst && !t.producer.hasFrame
                  && t.phase == Waiting(true))
            && (a == FailRestart ==> t.phase == Gone)
            && (a != ReplaceProducer && a != FailRestart ==> t.phase == s.phase && t.producer.id == s.producer.id)
  {
  }

  /** A restart that was asked for is honoured: the camera thread that finds it stops the producer
      and delivers nothing more until it has given up or there is a new producer, with the size
      and burst asked for. */
  lemma RestartIsHonoured(s: State, actions: seq<Action>)
    requires s.phase.Checking? && s.restart.Restart? && Runs(Apply(s, CheckRestart), actions)
    requires ReplaceProducer !in actions && FailRestart !in actions
    ensures var t := After(Apply(s, CheckRestart), actions);
            && t.phase == Joining(s.restart.size, s.restart.oneBurst) && t.delivered == s.delivered
            && t.producer.id == s.producer.id && !t.producer.running
  {
    JoiningRun(Apply(s, CheckRestart), actions);
  }

  lemma {:induction false} JoiningRun(s: State, actions: seq<Action>)
    requires s.phase.Joining? && !s.producer.running && Runs(s, actions)
    requires ReplaceProducer !in actions && FailRestart !in actions
    ensures var t := After(s, actions);
            t.phase == s.phase && t.delivered == s.delivered && t.producer.id == s.producer.id && !t.producer.running
    decreases |actions|
  {
    if actions != [] {
      JoiningStep(s, actions[0]);
      StoppedStep(s, actions[0]);
      JoiningRun(Apply(s, actions[0]), actions[1..]);
    }
  }

  // ----- The producer goes on -----

  lemma {:induction false} RunJoin(s: State, first: seq<Action>, second: seq<Action>)
    requires Runs(s, first) && Runs(After(s, first), second)
    ensures Runs(s, first + second) && After(s, first + second) == After(After(s, first), second)
    decreases |first|
  {
    if first == [] {
      assert first + second == second;
    } else {
      assert (first + second)[0] == first[0] && (first + second)[1..] == first[1..] + second;
      RunJoin(Apply(s, first[0]), first[1..], second);
    }
  }

  // A run that grows by one producer step.
  lemma Grow(s: State, actions: seq<Action>, a: ProducerAction) returns (more: seq<Action>)
    requires Runs(s, actions) && CanAct(After(s, actions).producer, a)
    ensures more == actions + [ProducerStep(a)] && Runs(s, more)
    ensures After(s, more) == After(s, actions).(producer := Act(After(s, actions).producer, a))
  {
    more := actions + [ProducerStep(a)];
    RunMore(s, actions, ProducerStep(a));
  }

  predicate ProducerSteps(actions: seq<Action>) {
    forall i :: 0 <= i < |actions| ==> actions[i].ProducerStep?
  }

  // Draws the bytes from k on.
  lemma {:induction false} DrawRest(s: State, k: nat) returns (actions: seq<Action>)
    requires s.producer.phase.Drawing? && k <= s.producer.size && forall j: nat :: j < k ==> j in s.producer.phase.done
    ensures Runs(s, actions) && ProducerSteps(actions)
    ensures var p, q := s.producer, After(s, actions).producer;
            && q.phase.Drawing? && q.phase.stamped == p.phase.stamped
            && (forall j: nat :: j < p.size ==> j in q.phase.done)
            && q == p.(buffers := q.buffers, phase := q.phase)
    decreases s.producer.size - k
  {
    if k == s.producer.size {
      actions := [];
      assert After(s, []) == s;
    } else {
      var next := Apply(s, ProducerStep(DrawAt(k)));
      var rest := DrawRest(next, k + 1);
      actions := [ProducerStep(DrawAt(k))] + rest;
      assert actions[1..] == rest;
    }
  }

  // One frame drawn and stamped.
  lemma DrawFrame(s: State) returns (actions: seq<Action>)
    requires s.producer.phase == Sleeping && s.producer.running
    ensures Runs(s, actions) && ProducerSteps(actions)
    ensures var p, q := s.producer, After(s, actions).producer;
            q == p.(buffers := q.buffers, secondaryStamp := Stamp(p.id, p.shown + 1), phase := Drawn)
  {
    assert After(s, []) == s;
    var first := Grow(s, [], Wake);
    first := Grow(s, first, WriteStamp);
    var rest := DrawRest(After(s, first), 0);
    RunJoin(s, first, rest);
    actions := Grow(s, first + rest, FinishDrawing);
  }

  lemma ShowFrame(s: State) returns (actions: seq<Action>)
    requires s.producer.phase == Drawn && s.producer.mutex == Nobody
    ensures Runs(s, actions) && ProducerSteps(actions)
    ensures var p, q := s.producer, After(s, actions).producer;
            && q.id == p.id && q.shown == p.shown + 1 && q.hasFrame && q.mutex == Nobody
            && q.running == p.running && q.oneBurst == p.oneBurst
            && (q.phase == if p.running && !p.oneBurst then Sleeping else Exited)
  {
    assert After(s, []) == s;
    actions := Grow(s, [], LockForSwap);
    actions := Grow(s, actions, SwapBuffers);
    actions := Grow(s, actions, SwapStamps);
    actions := Grow(s, actions, UnlockSwapped);
    actions := Grow(s, actions, Announce);
    actions := Grow(s, actions, LoopOrExit);
  }

  /** While the camera thread does not hold the lock, a running producer that is between frames
      can show another one, of any size, by its own steps alone; then it goes on to the next, or
      leaves if it was started for one burst. */
  lemma ProducerGoesOn(s: State) returns (actions: seq<Action>)
    requires s.producer.phase == Sleeping && s.producer.running && s.producer.mutex == Nobody
    ensures Runs(s, actions) && ProducerSteps(actions)
    ensures var p, q := s.producer, After(s, actions).producer;
            && q.shown == p.shown + 1 && q.hasFrame
            && (q.phase == if p.oneBurst then Exited else Sleeping)
  {
    var first := DrawFrame(s);
    var second := ShowFrame(After(s, first));
    RunJoin(s, first, second);
    actions := first + second;
  }

  /** The lock is what keeps the frame: the primary buffer of a producer moves in exactly one
      step, and that step is shut out while the camera thread copies. */
  lemma PrimaryMovesOnlyInSwap(s: State, a: Action)
    requires Reachable(s) && Enabled(s, a) && a != ReplaceProducer
    ensures Apply(s, a).producer.primary != s.producer.primary <==> a == ProducerStep(SwapBuffers)
    ensures a == ProducerStep(SwapBuffers) ==> !s.phase.Copying?
  {
    ReachableInv(s);
    if a.ProducerStep? {
      OnlySwapMoves(s.producer, a.a);
    }
  }

  lemma OnlySwapMoves(p: FrameProducer, a: ProducerAction)
    requires CanAct(p, a) && p.primary != p.secondary
    ensures Act(p, a).primary != p.primary <==> a == SwapBuffers
  {
  }
}
