/**
 The in-flight queue of the HAL2 readout thread: a ring of four slots with a head and a tail
 index, one slot always left free. Each method is proved against a plain queue.
 */
module Hal2Ring {

  const kInFlightQueueSize := 4

  // One queued operation, with the stream ids of its buffers and whether one of them is a BLOB.
  datatype Entry = Entry(isCapture: bool, request: nat, buffers: seq<int>, blob: bool)

  datatype Slot = Cleared | Filled(entry: Entry)

  datatype Option<T> = None | Some(value: T)

  // The slot k places after i.
  function Place(i: nat, k: nat): (r: nat)
    ensures r < kInFlightQueueSize
  {
    (i + k) % kInFlightQueueSize
  }

  lemma PlaceNext(i: nat, k: nat)
    ensures Place(Place(i, k), 1) == Place(i, k + 1)
    ensures Place(Place(i, 1), k) == Place(i, k + 1)
  {
  }

  lemma PlacesDiffer(i: nat, j: nat, k: nat)
    requires j < k < kInFlightQueueSize
    ensures Place(i, j) != Place(i, k)
  {
  }

  // Slots, read from head up to tail, hold exactly the queue.
  ghost predicate Holds(slots: seq<Slot>, head: nat, tail: nat, queue: seq<Entry>) {
    && |slots| == kInFlightQueueSize && head < kInFlightQueueSize && |queue| < kInFlightQueueSize
    && tail == Place(head, |queue|)
    && forall k :: 0 <= k < |queue| ==> slots[Place(head, k)] == Filled(queue[k])
  }

  // The representation is unambiguous.
  lemma HoldsOne(slots: seq<Slot>, head: nat, tail: nat, queue: seq<Entry>, queue': seq<Entry>)
    requires Holds(slots, head, tail, queue) && Holds(slots, head, tail, queue')
    ensures queue == queue'
  {
  }

  lemma HeadIsTail(slots: seq<Slot>, head: nat, tail: nat, queue: seq<Entry>)
    requires Holds(slots, head, tail, queue)
    ensures head == tail <==> queue == []
    ensures Place(tail, 1) == head <==> |queue| == kInFlightQueueSize - 1
  {
  }

  lemma PushHolds(slots: seq<Slot>, head: nat, tail: nat, queue: seq<Entry>, e: Entry)
    requires Holds(slots, head, tail, queue) && |queue| < kInFlightQueueSize - 1
    ensures Holds(slots[tail := Filled(e)], head, Place(tail, 1), queue + [e])
  {
  }

  lemma PopHolds(slots: seq<Slot>, head: nat, tail: nat, queue: seq<Entry>)
    requires Holds(slots, head, tail, queue) && queue != []
    ensures slots[head] == Filled(queue[0])
    ensures Holds(slots[head := Cleared], Place(head, 1), tail, queue[1..])
  {
  }

  predicate Carries(queue: seq<Entry>, id: int) {
    exists i :: 0 <= i < |queue| && id in queue[i].buffers
  }

  /** The input side of the readout thread. queue is what the ring stands for. */
  class ReadoutQueue {
    const inFlightQueue: array<Slot>
    var inFlightHead: nat
    var inFlightTail: nat
    var requestCount: nat
    var active: bool
    var current: Option<Entry>
    ghost var queue: seq<Entry>

    /** Never more than three operations; the request count is the queue plus the request being
        read out; a thread that went inactive has nothing to do. */
    ghost predicate Valid()
      reads this, inFlightQueue
    {
      && Holds(inFlightQueue[..], inFlightHead, inFlightTail, queue)
      && requestCount == |queue| + (if current.Some? then 1 else 0)
      && (!active ==> queue == [] && current.None?)
    }

    constructor ()
      ensures Valid() && fresh(inFlightQueue) && queue == [] && current.None? && !active
    {
      inFlightQueue := new Slot[kInFlightQueueSize](i => Cleared);
      inFlightHead, inFlightTail, requestCount := 0, 0, 0;
      active, current, queue := false, None, [];
    }

    method ReadyForNextCapture() returns (ready: bool)
      requires Valid()
      ensures ready <==> |queue| < kInFlightQueueSize - 1
    {
      HeadIsTail(inFlightQueue[..], inFlightHead, inFlightTail, queue);
      ready := Place(inFlightTail, 1) != inFlightHead;
    }

    /** setNextOperation: queued at the end, or dropped exactly when three are waiting. */
    method SetNextOperation(isCapture: bool, request: nat, buffers: seq<int>, blob: bool) returns (taken: bool)
      requires Valid()
      modifies this, inFlightQueue
      ensures Valid() && current == old(current)
      ensures taken <==> old(|queue|) < kInFlightQueueSize - 1
      ensures taken ==> queue == old(queue) + [Entry(isCapture, request, buffers, blob)] && active
      ensures !taken ==> queue == old(queue) && active == old(active)
    {
      var ready := ReadyForNextCapture();
      if !ready {
        return false;
      }
      ghost var e := Entry(isCapture, request, buffers, blob);
      PushHolds(inFlightQueue[..], inFlightHead, inFlightTail, queue, e);
      inFlightQueue[inFlightTail] := Filled(Entry(isCapture, request, buffers, blob));
      inFlightTail := Place(inFlightTail, 1);
      requestCount := requestCount + 1;
      queue := queue + [e];
      if !active {
        active := true;
      }
      return true;
    }

    /** The head of the readout loop: nothing while inactive or while a request is being read
        out; otherwise the oldest operation, or inactive when there is none. */
    method TakeNext() returns (work: bool)
      requires Valid()
      modifies this, inFlightQueue
      ensures Valid() && requestCount == old(requestCount)
      ensures work <==> current.Some?
      ensures active <==> old(active) && current.Some?
      ensures old(current.Some?) || old(queue) == [] ==> current == old(current) && queue == old(queue)
      ensures old(current.None?) && old(queue) != [] ==> current == Some(old(queue)[0]) && queue == old(queue)[1..]
    {
      if !active {
        return false;
      }
      if current.None? {
        HeadIsTail(inFlightQueue[..], inFlightHead, inFlightTail, queue);
        if inFlightHead == inFlightTail {
          active := false;
          return false;
        }
        PopHolds(inFlightQueue[..], inFlightHead, inFlightTail, queue);
        current := Some(inFlightQueue[inFlightHead].entry);
        inFlightQueue[inFlightHead] := Cleared;
        inFlightHead := Place(inFlightHead, 1);
        queue := queue[1..];
      }
      return true;
    }

    // The end of the readout loop.
    method FinishCurrent()
      requires Valid() && current.Some?
      modifies this
      ensures Valid() && current.None? && queue == old(queue) && active == old(active)
      ensures requestCount == old(requestCount) - 1
    {
      current := None;
      requestCount := requestCount - 1;
    }

    /** isStreamInUse: walks the ring from head to tail, then the request being read out. */
    method IsStreamInUse(id: int) returns (used: bool)
      requires Valid()
      ensures used <==> Carries(queue, id) || (current.Some? && id in current.value.buffers)
    {
      var i := inFlightHead;
      ghost var k := 0;
      while i != inFlightTail
        invariant 0 <= k <= |queue| && i == Place(inFlightHead, k)
        invariant forall j :: 0 <= j < k ==> id !in queue[j].buffers
        decreases |queue| - k
      {
        assert inFlightQueue[..][Place(inFlightHead, k)] == Filled(queue[k]);
        if id in inFlightQueue[i].entry.buffers {
          return true;
        }
        PlaceNext(inFlightHead, k);
        i := Place(i, 1);
        k := k + 1;
      }
      if k < |queue| {
        PlacesDiffer(inFlightHead, k, |queue|);
      }
      return current.Some? && id in current.value.buffers;
    }
  }
}
