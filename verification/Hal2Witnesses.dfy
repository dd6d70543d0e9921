/**
 Two limits of the HAL2 pipeline, each with the runs that reach it: which orders of asking the
 stages work in isStreamInUse, and that a reprocess request that finds the in-flight queue full
 is dropped.
 */
module Hal2Witnesses {
  import opened Hal2Ring
  import opened Hal2Pipeline

  // ----- The order of the checks -----

  // refuses says whether the compressor refuses every start, as the one in the repository does
  // to HAL2.
  ghost predicate Reaches(order: seq<Stage>, refuses: bool, s: State) {
    exists actions: seq<Action> ::
      Runs(Initial(order), actions) && After(Initial(order), actions) == s && (refuses ==> HandOver(true) !in actions)
  }

  lemma ReachesStart(order: seq<Stage>, refuses: bool)
    ensures Reaches(order, refuses, Initial(order))
  {
    assert Runs(Initial(order), []) && After(Initial(order), []) == Initial(order);
  }

  lemma Reach(order: seq<Stage>, refuses: bool, s: State, a: Action, t: State)
    requires Reaches(order, refuses, s) && Enabled(s, a) && t == Apply(s, a) && (refuses ==> a != HandOver(true))
    ensures Reaches(order, refuses, t)
  {
    var actions: seq<Action> :| Runs(Initial(order), actions) && After(Initial(order), actions) == s
                                && (refuses ==> HandOver(true) !in actions);
    RunMore(Initial(order), actions, a);
  }

  // No run comes to remove a stream that some stage still has.
  ghost predicate OrderIsSound(order: seq<Stage>, refuses: bool) {
    forall s: State, stage: Stage :: Reaches(order, refuses, s) && Enabled(s, Remove) ==> !Uses(s, stage, s.releaser.id)
  }

  ghost predicate AsksEachOnce(order: seq<Stage>) {
    |order| == 3 && order[0] != order[1] && order[0] != order[2] && order[1] != order[2]
  }

  // A capture with one output, a BLOB.
  function OneRequest(): Request {
    Request(true, 0, [1], true)
  }

  function OneEntry(): Entry {
    Entry(true, 0, [1], true)
  }

  function Base(order: seq<Stage>): State {
    Initial(order).(streams := {1})
  }

  // Stream 1 is in the configure stage only, all its buffers fetched.
  function InConfigure(order: seq<Stage>): State {
    Base(order).(config := Fetching(OneRequest(), 1))
  }

  // Stream 1 is in the readout stage only, about to be handed to the compressor.
  function InReadout(order: seq<Stage>): State {
    Base(order).(readout := Sending(OneEntry(), 1), active := true, count := 1, queued := [OneEntry()],
        taken := [OneEntry()])
  }

  lemma ReachConfigure(order: seq<Stage>, refuses: bool)
    ensures Reaches(order, refuses, InConfigure(order))
  {
    var r, b := OneRequest(), Base(order);
    ReachesStart(order, refuses);
    Reach(order, refuses, Initial(order), Allocate(1), b);
    Reach(order, refuses, b, Dequeue(r), b.(config := Setup(r, 0)));
    Reach(order, refuses, b.(config := Setup(r, 0)), LookUp, b.(config := Setup(r, 1)));
    Reach(order, refuses, b.(config := Setup(r, 1)), FinishSetup, b.(config := Waiting(r, true, true)));
    Reach(order, refuses, b.(config := Waiting(r, true, true)), ReadoutReady, b.(config := Waiting(r, false, true)));
    Reach(order, refuses, b.(config := Waiting(r, false, true)), JpegReady, b.(config := Waiting(r, false, false)));
    Reach(order, refuses, b.(config := Waiting(r, false, false)), BeginHandoff, b.(config := Fetching(r, 0)));
    Reach(order, refuses, b.(config := Fetching(r, 0)), Fetch, b.(config := Fetching(r, 1)));
  }

  // From one of these states, the hand-over to the next stage.
  function PushedOn(s: State): State {
    s.(config := Idle, ring := [OneEntry()], queued := [OneEntry()], count := 1, active := true)
  }

  lemma ReachPushed(order: seq<Stage>, refuses: bool, s: State)
    requires Reaches(order, refuses, s) && s == InConfigure(order).(releaser := s.releaser)
    ensures Reaches(order, refuses, PushedOn(s))
  {
    var e := OneEntry();
    var pushed := PushedOn(s).(config := Pushed(OneRequest()));
    assert s.ring + [e] == [e] && s.queued + [e] == [e];
    Reach(order, refuses, s, Push, pushed);
    Reach(order, refuses, pushed, ClearNext, PushedOn(s));
  }

  lemma ReachReadout(order: seq<Stage>, refuses: bool)
    ensures Reaches(order, refuses, InReadout(order))
  {
    var e := OneEntry();
    ReachConfigure(order, refuses);
    ReachPushed(order, refuses, InConfigure(order));
    var s := InReadout(order);
    assert [e][1..] == [] && [] + [e] == [e];
    Reach(order, refuses, PushedOn(InConfigure(order)), TakeNext, s.(readout := Exposing(e)));
    Reach(order, refuses, s.(readout := Exposing(e)), GotFrame, s.(readout := Sending(e, 0)));
    Reach(order, refuses, s.(readout := Sending(e, 0)), SendNext(true), s);
  }

  function CompressedOn(s: State): State {
    s.(readout := Resting, count := 0, jpeg := Compressing([1]))
  }

  lemma ReachCompressed(order: seq<Stage>, refuses: bool, s: State)
    requires Reaches(order, refuses, s) && s == InReadout(order).(releaser := s.releaser) && !refuses
    ensures Reaches(order, refuses, CompressedOn(s))
  {
    var over := s.(jpeg := Compressing([1]), readout := HandedOver(OneEntry()));
    Reach(order, refuses, s, HandOver(true), over);
    Reach(order, refuses, over, ClearBuffers, over.(readout := Finished));
    Reach(order, refuses, over.(readout := Finished), CountDown, CompressedOn(s));
  }

  // The release asks the next stage and finds nothing.
  lemma Asked(order: seq<Stage>, refuses: bool, s: State, todo: seq<Stage>)
    requires Reaches(order, refuses, s) && s.releaser == Checking(1, todo) && todo != []
    requires Open(s, todo[0]) && !Uses(s, todo[0], 1)
    ensures Reaches(order, refuses, s.(releaser := Checking(1, todo[1..])))
  {
    Reach(order, refuses, s, CheckStage, s.(releaser := Checking(1, todo[1..])));
  }

  // Readout found nothing, configure hands over, and then configure has nothing either.
  lemma HandedOverBetween(order: seq<Stage>, refuses: bool, s: State, todo: seq<Stage>)
    requires Reaches(order, refuses, s) && s == InConfigure(order).(releaser := Checking(1, todo))
    requires ReadoutStage !in todo
    ensures !OrderIsSound(order, refuses)
  {
    ReachPushed(order, refuses, s);
    var t := PushedOn(s);
    assert 1 in t.ring[0].buffers;
    FinishAsking(order, refuses, t, todo, ReadoutStage);
  }

  lemma ReadoutFirst(order: seq<Stage>, refuses: bool)
    requires AsksEachOnce(order) && order[0] == ReadoutStage
    ensures !OrderIsSound(order, refuses)
  {
    ReachConfigure(order, refuses);
    var s := InConfigure(order).(releaser := Checking(1, order));
    Reach(order, refuses, InConfigure(order), BeginRelease(1), s);
    Asked(order, refuses, s, order);
    HandedOverBetween(order, refuses, s.(releaser := Checking(1, order[1..])), order[1..]);
  }

  lemma ReadoutSecondOfReverse(order: seq<Stage>, refuses: bool)
    requires order == [JpegStage, ReadoutStage, ConfigureStage]
    ensures !OrderIsSound(order, refuses)
  {
    ReachConfigure(order, refuses);
    var s := InConfigure(order).(releaser := Checking(1, order));
    Reach(order, refuses, InConfigure(order), BeginRelease(1), s);
    Asked(order, refuses, s, order);
    assert order[1..] == [ReadoutStage, ConfigureStage] && order[1..][1..] == [ConfigureStage];
    s := s.(releaser := Checking(1, order[1..]));
    Asked(order, refuses, s, order[1..]);
    HandedOverBetween(order, refuses, s.(releaser := Checking(1, [ConfigureStage])), [ConfigureStage]);
  }

  // Asking the compressor before readout misses one handed over in between. This rests on a
  // compressor that accepts the start.
  lemma ReadoutLast(order: seq<Stage>, refuses: bool)
    requires AsksEachOnce(order) && order[2] == ReadoutStage && !refuses
    ensures !OrderIsSound(order, refuses)
  {
    ReachReadout(order, refuses);
    var s := InReadout(order).(releaser := Checking(1, order));
    Reach(order, refuses, InReadout(order), BeginRelease(1), s);
    assert order[0] != ReadoutStage && order[1] != ReadoutStage;
    Asked(order, refuses, s, order);
    s := s.(releaser := Checking(1, order[1..]));
    Asked(order, refuses, s, order[1..]);
    assert order[1..][1..] == order[2..];
    s := s.(releaser := Checking(1, order[2..]));
    ReachCompressed(order, refuses, s);
    FinishAsking(order, refuses, CompressedOn(s), order[2..], JpegStage);
  }

  // The stages still to be asked are clear, but another one is not.
  lemma {:induction false} FinishAsking(order: seq<Stage>, refuses: bool, s: State, todo: seq<Stage>, stage: Stage)
    requires Reaches(order, refuses, s) && s.releaser == Checking(1, todo) && Uses(s, stage, 1)
    requires forall i :: 0 <= i < |todo| ==> Open(s, todo[i]) && !Uses(s, todo[i], 1)
    ensures !OrderIsSound(order, refuses)
    decreases |todo|
  {
    if todo == [] {
      assert Enabled(s, Remove);
    } else {
      Asked(order, refuses, s, todo);
      var t := s.(releaser := Checking(1, todo[1..]));
      assert Uses(t, stage, 1);
      forall i | 0 <= i < |todo[1..]| ensures Open(t, todo[1..][i]) && !Uses(t, todo[1..][i], 1) {
        assert todo[1..][i] == todo[i + 1];
      }
      FinishAsking(order, refuses, t, todo[1..], stage);
    }
  }

  // Configure is asked before readout.
  ghost predicate ConfigureFirst(todo: seq<Stage>) {
    todo == [] || ((ConfigureStage in todo ==> ReadoutStage in todo) && ConfigureFirst(todo[1..]))
  }

  // With a compressor that never starts, the stages asked so far stay clear.
  ghost predicate RefusedInv(s: State) {
    && s.jpeg.Ready? && ConfigureFirst(s.order)
    && (s.releaser.Checking? ==>
        && ConfigureFirst(s.releaser.todo)
        && (ConfigureStage !in s.releaser.todo ==> !Uses(s, ConfigureStage, s.releaser.id))
        && (ReadoutStage !in s.releaser.todo ==>
              ConfigureStage !in s.releaser.todo && !Uses(s, ReadoutStage, s.releaser.id)))
  }

  lemma RefusedStep(s: State, a: Action)
    requires RefusedInv(s) && Enabled(s, a) && a != HandOver(true)
    requires ConfigureStage in s.order && ReadoutStage in s.order
    ensures RefusedInv(Apply(s, a)) && Apply(s, a).order == s.order
  {
    if s.releaser.Checking? {
      IdsMoveForward(s, a, s.releaser.id);
      var todo := s.releaser.todo;
      if a.CheckStage? {
        assert forall stage :: stage in todo[1..] || stage == todo[0] <==> stage in todo;
      }
    }
  }

  lemma {:induction false} RefusedRun(s: State, actions: seq<Action>)
    requires RefusedInv(s) && Runs(s, actions) && HandOver(true) !in actions
    requires ConfigureStage in s.order && ReadoutStage in s.order
    ensures RefusedInv(After(s, actions))
    decreases |actions|
  {
    if actions != [] {
      RefusedStep(s, actions[0]);
      RefusedRun(Apply(s, actions[0]), actions[1..]);
    }
  }

  lemma ConfigureFirstIsSound(order: seq<Stage>, s: State, stage: Stage)
    requires AsksEachOnce(order) && ConfigureFirst(order) && Reaches(order, true, s) && Enabled(s, Remove)
    ensures !Uses(s, stage, s.releaser.id)
  {
    var actions: seq<Action> :| Runs(Initial(order), actions) && After(Initial(order), actions) == s
        && HandOver(true) !in actions;
    RefusedRun(Initial(order), actions);
  }

  // Exactly the three orders with configure before readout.
  lemma ConfigureFirstOrders(order: seq<Stage>)
    requires AsksEachOnce(order)
    ensures ConfigureFirst(order) <==> order[0] != ReadoutStage && order != [JpegStage, ReadoutStage, ConfigureStage]
  {
    var a, b, c := order[0], order[1], order[2];
    assert order == [a, b, c] && order[1..] == [b, c] && [b, c][1..] == [c] && [c][1..] == [];
    assert ConfigureFirst([c]) <==> c != ConfigureStage;
    assert ConfigureFirst([b, c]) <==> (ConfigureStage in [b, c] ==> ReadoutStage in [b, c]) && ConfigureFirst([c]);
    assert ConfigureFirst(order) <==>
             (ConfigureStage in [a, b, c] ==> ReadoutStage in [a, b, c]) && ConfigureFirst([b, c]);
  }

  lemma SoundIfRefusing(order: seq<Stage>)
    requires AsksEachOnce(order)
    ensures OrderIsSound(order, true) <==> ConfigureFirst(order)
  {
    ConfigureFirstOrders(order);
    if order[0] == ReadoutStage {
      ReadoutFirst(order, true);
    } else if order == [JpegStage, ReadoutStage, ConfigureStage] {
      ReadoutSecondOfReverse(order, true);
    } else {
      forall s: State, stage: Stage | Reaches(order, true, s)
          && Enabled(s, Remove) ensures !Uses(s, stage, s.releaser.id) {
        ConfigureFirstIsSound(order, s, stage);
      }
    }
  }

  lemma SoundIfAccepting(order: seq<Stage>)
    requires AsksEachOnce(order)
    ensures OrderIsSound(order, false) <==> order == PipelineOrder
  {
    if order[0] == ReadoutStage {
      ReadoutFirst(order, false);
    } else if order[2] == ReadoutStage {
      ReadoutLast(order, false);
    } else if order[0] == JpegStage {
      assert order == [JpegStage, ReadoutStage, ConfigureStage];
      ReadoutSecondOfReverse(order, false);
    } else {
      assert order == PipelineOrder;
      forall s: State, stage: Stage | Reaches(order, false, s)
          && Enabled(s, Remove) ensures !Uses(s, stage, s.releaser.id) {
        assert Reachable(order, s);
        RemovedStreamIsNowhere(s, stage);
      }
    }
  }

  /** Of the six orders in which the stages can be asked, the pipeline's own is the only one
      under which no stream is removed while a stage still has it. If the compressor refuses
      every start, as the one in the repository does because HAL2 does not reserve it, exactly
      the three orders are sound that ask configure before readout. */
  lemma OnlyPipelineOrderIsSound(order: seq<Stage>, refuses: bool)
    requires AsksEachOnce(order)
    ensures OrderIsSound(order, refuses) <==> order == PipelineOrder || (refuses && ConfigureFirst(order))
  {
    if refuses {
      SoundIfRefusing(order);
      ConfigureFirstOrders(order);
    } else {
      SoundIfAccepting(order);
    }
  }

  // ----- What is dropped -----

  /** A request is dropped at its hand-over exactly when it is a reprocess request and three
      operations are waiting. */
  lemma DroppedIff(s: State)
    requires Reachable(PipelineOrder, s) && Enabled(s, Push)
    ensures |Apply(s, Push).dropped| > |s.dropped| <==>
              !s.config.request.isCapture && |s.ring| == kInFlightQueueSize - 1
  {
    ReachableInv(s);
  }

  lemma Grow(s: State, a: Action, t: State)
    requires Reachable(PipelineOrder, s) && Enabled(s, a) && t == Apply(s, a)
    ensures Reachable(PipelineOrder, t)
  {
    ReachableStep(PipelineOrder, s, a);
  }

  function Captures(n: nat): (r: seq<Entry>)
    ensures |r| == n
  {
    if n == 0 then [] else Captures(n - 1) + [Entry(true, 0, [], false)]
  }

  // Captures without buffers, queued while the readout thread does not get to run. Stream 1 is
  // allocated.
  function Backlog(n: nat): State {
    Initial(PipelineOrder).(streams := {1}, ring := Captures(n), queued := Captures(n), count := n, active := n > 0)
  }

  // A capture without buffers, up to the hand-over.
  lemma ReachCapture(b: State, r: Request)
    requires Reachable(PipelineOrder, b) && b.config.Idle? && |b.ring| < kInFlightQueueSize - 1
    requires r.ids == [] && r.isCapture && !r.jpeg
    ensures Reachable(PipelineOrder, b.(config := Fetching(r, 0)))
  {
    Grow(b, Dequeue(r), b.(config := Setup(r, 0)));
    Grow(b.(config := Setup(r, 0)), FinishSetup, b.(config := Waiting(r, true, false)));
    Grow(b.(config := Waiting(r, true, false)), ReadoutReady, b.(config := Waiting(r, false, false)));
    Grow(b.(config := Waiting(r, false, false)), BeginHandoff, b.(config := Fetching(r, 0)));
  }

  lemma {:induction false} ReachBacklog(n: nat)
    requires n <= 3
    ensures Reachable(PipelineOrder, Backlog(n))
  {
    if n == 0 {
      ReachableStart(PipelineOrder);
      Grow(Initial(PipelineOrder), Allocate(1), Backlog(0));
    } else {
      ReachBacklog(n - 1);
      var r, b := Request(true, 0, [], false), Backlog(n - 1);
      ReachCapture(b, r);
      Grow(b.(config := Fetching(r, 0)), Push, Backlog(n).(config := Pushed(r)));
      Grow(Backlog(n).(config := Pushed(r)), ClearNext, Backlog(n));
    }
  }

  // A reprocess request from reprocess stream 1 to the BLOB output stream 1, its buffers fetched.
  lemma ReachReprocess(b: State, r: Request)
    requires Reachable(PipelineOrder, b) && b.config.Idle? && b.jpeg.Ready? && b.releaser.NoRelease? && 1 in b.streams
    requires r == Request(false, 1, [-1, 1], true)
    ensures Reachable(PipelineOrder, b.(config := Fetching(r, 2)))
  {
    Grow(b, Dequeue(r), b.(config := Setup(r, 0)));
    Grow(b.(config := Setup(r, 0)), LookUp, b.(config := Setup(r, 1)));
    Grow(b.(config := Setup(r, 1)), LookUp, b.(config := Setup(r, 2)));
    Grow(b.(config := Setup(r, 2)), FinishSetup, b.(config := Waiting(r, false, true)));
    Grow(b.(config := Waiting(r, false, true)), JpegReady, b.(config := Waiting(r, false, false)));
    Grow(b.(config := Waiting(r, false, false)), BeginHandoff, b.(config := Fetching(r, 0)));
    Grow(b.(config := Fetching(r, 0)), Fetch, b.(config := Fetching(r, 1)));
    Grow(b.(config := Fetching(r, 1)), Fetch, b.(config := Fetching(r, 2)));
  }

  /** And that does happen: a reprocess request does not wait for room. */
  lemma ReprocessCanBeDropped()
    ensures exists s: State :: Reachable(PipelineOrder, s) && s.dropped == [Entry(false, 1, [-1, 1], true)]
  {
    ReachBacklog(3);
    var r, b := Request(false, 1, [-1, 1], true), Backlog(3);
    ReachReprocess(b, r);
    var s := Apply(b.(config := Fetching(r, 2)), Push);
    Grow(b.(config := Fetching(r, 2)), Push, s);
    assert s.dropped == [AsEntry(r)];
  }
}
