/**
 What a HAL3 request gets back with its metadata: exactly its buffers other than JPEGs handed to
 the compressor, in the order it named them.
 */
module Hal3Results {
  import opened Hal3Pipeline

  // The buffers that are no JPEG, in order.
  function Images(buffers: seq<Buffer>): seq<Buffer> {
    if buffers == [] then [] else (if buffers[0].kind != Jpeg then [buffers[0]] else []) + Images(buffers[1..])
  }

  function FinishedImages(finished: seq<Finished>): seq<Buffer> {
    if finished == [] then []
    else
      var last := finished[|finished| - 1].buffer;
      FinishedImages(finished[..|finished| - 1]) + (if last.kind != Jpeg then [last] else [])
  }

  // A request, or a result, as far as frame and images go.
  datatype Shape = Shape(frame: nat, images: seq<Buffer>)

  function Requested(requests: seq<Request>): seq<Shape> {
    if requests == [] then []
    else [Shape(requests[0].frame, Images(requests[0].buffers))] + Requested(requests[1..])
  }

  function Sent(results: seq<Result>): seq<Shape> {
    if results == [] then []
    else
      var last := results[|results| - 1];
      Sent(results[..|results| - 1])
      + (if last.hasMetadata then [Shape(last.frame, FinishedImages(last.buffers))] else [])
  }

  function ShapeInReadout(r: Readout): seq<Shape> {
    if r.Waiting? then [] else [Shape(r.current.frame, FinishedImages(r.current.finished) + Images(r.current.todo))]
  }

  predicate ShapesInv(s: State) {
    Requested(s.accepted) == Sent(s.returned) + ShapeInReadout(s.readout) + Requested(s.queue)
  }

  lemma {:induction false} RequestedAppend(requests: seq<Request>, r: Request)
    ensures Requested(requests + [r]) == Requested(requests) + [Shape(r.frame, Images(r.buffers))]
  {
    if requests != [] {
      assert (requests + [r])[1..] == requests[1..] + [r];
      RequestedAppend(requests[1..], r);
    }
  }

  lemma FinishedAppend(finished: seq<Finished>, f: Finished)
    ensures FinishedImages(finished + [f])
         == FinishedImages(finished) + (if f.buffer.kind != Jpeg then [f.buffer] else [])
  {
    assert (finished + [f])[..|finished|] == finished;
  }

  lemma SentAppend(results: seq<Result>, r: Result)
    ensures Sent(results + [r])
         == Sent(results) + (if r.hasMetadata then [Shape(r.frame, FinishedImages(r.buffers))] else [])
  {
    assert (results + [r])[..|results|] == results;
  }

  lemma EnqueueShapes(s: State)
    requires ShapesInv(s) && s.submission.Admitted?
    ensures ShapesInv(Enqueue(s))
  {
    RequestedAppend(s.accepted, s.submission.request);
    RequestedAppend(s.queue, s.submission.request);
  }

  lemma DequeueShapes(s: State)
    requires ShapesInv(s) && CanDequeue(s)
    ensures ShapesInv(Dequeue(s))
  {
    var r := s.queue[0];
    assert FinishedImages([]) + Images(r.buffers) == Images(r.buffers);
  }

  // A buffer of the loop moves from the front of what is left to the end of what is done.
  lemma ImagesMove(finished: seq<Finished>, todo: seq<Buffer>, ok: bool)
    requires todo != []
    ensures FinishedImages(finished + [Finished(todo[0], ok)]) + Images(todo[1..])
         == FinishedImages(finished) + Images(todo)
    ensures todo[0].kind == Jpeg ==> Images(todo[1..]) == Images(todo)
  {
    var b := todo[0];
    var one := if b.kind != Jpeg then [b] else [];
    FinishedAppend(finished, Finished(b, ok));
    assert Images(todo) == one + Images(todo[1..]);
  }

  lemma HandleShapes(s: State, starts: bool)
    requires ShapesInv(s) && CanHandle(s)
    ensures ShapesInv(Handle(s, starts))
  {
    var c := s.readout.current;
    ImagesMove(c.finished, c.todo, c.todo[0].kind != Jpeg);
  }

  lemma SendShapes(s: State)
    requires ShapesInv(s) && LoopEnded(s.readout) && s.readout.Sending?
    ensures ShapesInv(Send(s))
  {
    var c := s.readout.current;
    var shape := Shape(c.frame, FinishedImages(c.finished));
    SentAppend(s.returned, Result(c.frame, true, c.finished));
    assert ShapeInReadout(s.readout) == [shape] by {
      assert FinishedImages(c.finished) + Images([]) == FinishedImages(c.finished);
    }
    assert Sent(Send(s).returned) == Sent(s.returned) + [shape];
  }

  lemma JpegShapes(s: State, success: bool)
    requires ShapesInv(s) && CanFinishJpeg(s)
    ensures ShapesInv(FinishJpeg(s, success))
  {
    SentAppend(s.returned, Result(s.slot.frame, false, [Finished(s.slot.buffer, success)]));
  }

  lemma StepShapes(s: State, a: Action)
    requires ShapesInv(s) && LoopEnded(s.readout) && Enabled(s, a)
    ensures ShapesInv(Apply(s, a))
  {
    match a
    case DoEnqueue => EnqueueShapes(s);
    case DoDequeue => DequeueShapes(s);
    case DoHandle(starts) => HandleShapes(s, starts);
    case DoSend => SendShapes(s);
    case DoFinishJpeg(success) => JpegShapes(s, success);
    case _ =>
  }

  lemma {:induction false} RunShapes(s: State, actions: seq<Action>, s': State)
    requires Inv(s) && ShapesInv(s) && Run(s, actions, s')
    ensures ShapesInv(s')
    decreases |actions|
  {
    if actions != [] {
      StepKeeps(s, actions[0]);
      StepShapes(s, actions[0]);
      RunShapes(Apply(s, actions[0]), actions[1..], s');
    }
  }

  /** On every run the n-th metadata result carries the frame of the n-th accepted request and
      exactly its buffers that are no JPEG, in their order. */
  lemma ResultsMatchRequests(s: State)
    requires Reachable(s)
    ensures Sent(s.returned) <= Requested(s.accepted)
    ensures |s.accepted| == |Requested(s.accepted)|
  {
    var actions :| Run(Initial, actions, s);
    RunShapes(Initial, actions, s);
    RequestedLength(s.accepted);
  }

  lemma {:induction false} RequestedLength(requests: seq<Request>)
    ensures |Requested(requests)| == |requests|
  {
    if requests != [] {
      RequestedLength(requests[1..]);
    }
  }
}
