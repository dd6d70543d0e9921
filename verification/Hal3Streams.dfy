/**
 Stream configuration of the HAL3 camera: configureStreams as a mark-and-sweep over the
 stream list, and the request validation that relies on what it leaves behind.
 */
module Hal3Streams {

  const MAX_BUFFER_COUNT := 4

  datatype StreamType = Output | Input | Bidirectional

  datatype Format =
    | Raw16 | Blob | Rgba8888 | ImplementationDefined | YCbCr420 | Y16   // kAvailableFormats
    | Rgb888 | OtherFormat(code: int)

  datatype Usage = Usage(cameraWrite: bool, cameraRead: bool, texture: bool, videoEncoder: bool)

  datatype Description = Description(
    kind: StreamType, width: nat, height: nat, rotation: int, usage: Usage, format: Format)

  // PrivateStreamInfo, which each stream owns alone.
  datatype Private = NoInfo | Info(alive: bool)

  class Stream {
    var description: Description
    var maxBuffers: nat
    var priv: Private

    constructor (description: Description)
      ensures this.description == description && priv == NoInfo
    {
      this.description := description;
      maxBuffers, priv := 0, NoInfo;
    }
  }

  predicate IsInput(d: Description) {
    d.kind == Input || d.kind == Bidirectional
  }

  predicate AvailableFormat(f: Format) {
    f in {Raw16, Blob, Rgba8888, ImplementationDefined, YCbCr420, Y16}
  }

  const kAvailableFormats: seq<Format> := [Raw16, Blob, Rgba8888, ImplementationDefined, YCbCr420, Y16]

  predicate Supported(d: Description, sensorWidth: nat, sensorHeight: nat) {
    && (d.kind != Input ==> 0 <= d.rotation <= 3)
    && 0 < d.width <= sensorWidth && 0 < d.height <= sensorHeight
    && AvailableFormat(d.format)
  }

  function GrantUsage(d: Description): Usage {
    match d.kind
    case Output => d.usage.(cameraWrite := true)
    case Input => d.usage.(cameraRead := true)
    case Bidirectional => d.usage.(cameraRead := true, cameraWrite := true)
  }

  function ConcreteFormat(f: Format, u: Usage): Format {
    if f != ImplementationDefined || !u.cameraWrite then f
    else if u.texture then Rgba8888
    else if u.videoEncoder then YCbCr420
    else Rgb888
  }

  // What an accepted configuration does to a stream's description.
  function Configured(d: Description): Description {
    var u := GrantUsage(d);
    d.(usage := u, format := ConcreteFormat(d.format, u))
  }

  // The camera writes to it: an output, or an input that came with the usage.
  predicate Written(d: Description) {
    d.kind == Output || d.kind == Bidirectional || d.usage.cameraWrite
  }

  // What a configuration promises of a stream: the camera usage follows the type, a stream the
  // camera writes gets a concrete format for what it is used for, and nothing else changes.
  predicate ConfiguredFor(d: Description, d': Description) {
    && d'.kind == d.kind && d'.width == d.width && d'.height == d.height && d'.rotation == d.rotation
    && d'.usage.texture == d.usage.texture && d'.usage.videoEncoder == d.usage.videoEncoder
    && (d'.usage.cameraWrite <==> Written(d))
    && (d'.usage.cameraRead <==> d.kind == Input || d.kind == Bidirectional || d.usage.cameraRead)
    && (d.format == ImplementationDefined && Written(d) ==>
          && (d'.format == Rgba8888 <==> d.usage.texture)
          && (d'.format == YCbCr420 <==> d.usage.videoEncoder && !d.usage.texture)
          && (d'.format == Rgb888 <==> !d.usage.videoEncoder && !d.usage.texture))
    && (d.format != ImplementationDefined || !Written(d) ==> d'.format == d.format)
  }

  lemma ConfiguredIsFor(d: Description)
    ensures ConfiguredFor(d, Configured(d))
  {
  }

  // Becomes RGB_888 when configured, a format the sanity check does not list.
  predicate LosesItsFormat(d: Description) {
    && d.format == ImplementationDefined && (d.kind != Input || d.usage.cameraWrite)
    && !d.usage.texture && !d.usage.videoEncoder
  }

  // The sanity check, as a matter of descriptions alone.
  predicate Acceptable(ds: seq<Description>, sensorWidth: nat, sensorHeight: nat) {
    && ds != []
    && (forall i :: 0 <= i < |ds| ==> Supported(ds[i], sensorWidth, sensorHeight))
    && (forall i, j :: 0 <= i < j < |ds| ==> !(IsInput(ds[i]) && IsInput(ds[j])))
  }

  /** Offering an accepted list again, as the configuration left it: it is accepted exactly
      when no stream of it lost its format. */
  lemma AcceptedAgainUnless(before: seq<Description>, after: seq<Description>, sensorWidth: nat, sensorHeight: nat)
    requires Acceptable(before, sensorWidth, sensorHeight) && |after| == |before|
    requires forall i :: 0 <= i < |before| ==> after[i] == Configured(before[i])
    ensures Acceptable(after, sensorWidth, sensorHeight) <==>
              forall i :: 0 <= i < |before| ==> !LosesItsFormat(before[i])
  {
  }

  // The smallest case: an implementation-defined output for neither texture nor video encoder.
  function ZslOutput(width: nat, height: nat): Description {
    Description(Output, width, height, 0, Usage(false, false, false, false), ImplementationDefined)
  }

  /** It is accepted once, and refused as the first call leaves it. */
  lemma ZslOutputLosesItsFormat(width: nat, height: nat, sensorWidth: nat, sensorHeight: nat)
    requires 0 < width <= sensorWidth && 0 < height <= sensorHeight
    ensures var d := ZslOutput(width, height);
            && Acceptable([d], sensorWidth, sensorHeight) && LosesItsFormat(d)
            && !Acceptable([Configured(d)], sensorWidth, sensorHeight)
  {
    var d := ZslOutput(width, height);
    AcceptedAgainUnless([d], [Configured(d)], sensorWidth, sensorHeight);
    assert [d][0] == d;
  }

  ghost function Descriptions(list: seq<Stream?>): (r: seq<Description>)
    requires forall i :: 0 <= i < |list| ==> list[i] != null
    reads list
    ensures |r| == |list| && forall i :: 0 <= i < |list| ==> r[i] == list[i].description
  {
    if list == [] then [] else [list[0].description] + Descriptions(list[1..])
  }

  ghost predicate SomeLosesItsFormat(list: seq<Stream?>)
    reads list
  {
    exists i :: 0 <= i < |list| && list[i] != null && LosesItsFormat(list[i].description)
  }

  datatype Status = Error | Closed | Open | Ready | Active

  datatype StreamList = NullList | NullStreams | Streams(streams: seq<Stream?>)

  datatype Outcome = Ok | NoInit | BadValue | InvalidOperation

  datatype RequestBuffer = RequestBuffer(stream: Stream, statusOk: bool, releaseFence: int, hasHandle: bool)

  datatype InputBuffer = NoInput | InputFrom(buffer: RequestBuffer)

  datatype CaptureRequest =
    | NullRequest
    | CaptureRequest(hasSettings: bool, input: InputBuffer, outputs: seq<RequestBuffer>)

  ghost predicate NoDuplicates(s: seq<Stream>) {
    forall i, j :: 0 <= i < j < |s| ==> s[i] != s[j]
  }

  ghost function Elements(s: seq<Stream>): set<Stream> {
    set x | x in s
  }

  lemma ElementsAppend(s: seq<Stream>, x: Stream)
    ensures Elements(s + [x]) == Elements(s) + {x}
  {
  }

  // The list after the second pass: streams not yet present are appended once each.
  function Adopted(present: seq<Stream>, list: seq<Stream>): seq<Stream>
    decreases |list|
  {
    if list == [] then present
    else Adopted(if list[0] in present then present else present + [list[0]], list[1..])
  }

  function Kept(present: seq<Stream>, list: seq<Stream>): seq<Stream> {
    if present == [] then []
    else (if present[0] in list then [present[0]] else []) + Kept(present[1..], list)
  }

  lemma {:induction false} AdoptedMembers(present: seq<Stream>, list: seq<Stream>)
    requires NoDuplicates(present)
    ensures NoDuplicates(Adopted(present, list)) && present <= Adopted(present, list)
    ensures Elements(Adopted(present, list)) == Elements(present) + Elements(list)
    decreases |list|
  {
    if list != [] {
      var next := if list[0] in present then present else present + [list[0]];
      AdoptedMembers(next, list[1..]);
      assert Elements(next) == Elements(present) + {list[0]};
      assert Elements(list) == {list[0]} + Elements(list[1..]);
    }
  }

  lemma {:induction false} AdoptedStep(present: seq<Stream>, list: seq<Stream>, s: Stream)
    ensures Adopted(present, list + [s])
         == (if s in Adopted(present, list) then Adopted(present, list) else Adopted(present, list) + [s])
    decreases |list|
  {
    if list == [] {
      assert ([] + [s])[1..] == [];
    } else {
      assert (list + [s])[1..] == list[1..] + [s];
      AdoptedStep(if list[0] in present then present else present + [list[0]], list[1..], s);
    }
  }

  lemma {:induction false} KeptMembers(present: seq<Stream>, list: seq<Stream>)
    requires NoDuplicates(present)
    ensures NoDuplicates(Kept(present, list))
    ensures Elements(Kept(present, list)) == Elements(present) * Elements(list)
  {
    if present != [] {
      var rest := Kept(present[1..], list);
      KeptMembers(present[1..], list);
      assert Elements(present) == {present[0]} + Elements(present[1..]);
      assert Elements([present[0]] + rest) == {present[0]} + Elements(rest);
      assert present[0] !in present[1..];
      assert forall i :: 0 <= i < |rest| ==> rest[i] in Elements(rest);
    }
  }

  lemma {:induction false} KeptAppend(front: seq<Stream>, back: seq<Stream>, list: seq<Stream>)
    ensures Kept(front + back, list) == Kept(front, list) + Kept(back, list)
  {
    if front == [] {
      assert front + back == back;
    } else {
      assert (front + back)[0] == front[0] && (front + back)[1..] == front[1..] + back;
      KeptAppend(front[1..], back, list);
      var head := if front[0] in list then [front[0]] else [];
      assert head + (Kept(front[1..], list) + Kept(back, list)) == head + Kept(front[1..], list) + Kept(back, list);
    }
  }

  // What the second pass leaves of a stream it has visited, and of one it has not.
  twostate predicate Settled(s: Stream)
    reads s
  {
    s.priv == Info(true) && s.maxBuffers == MAX_BUFFER_COUNT && s.description == Configured(old(s.description))
  }

  twostate predicate Untouched(s: Stream)
    reads s
  {
    s.priv == old(s.priv) && s.description == old(s.description)
  }

  // The input is an input stream, and there is none without one.
  ghost predicate InputOf(input: Stream?, streams: set<Stream>)
    reads streams
  {
    if input == null then forall s :: s in streams ==> !IsInput(s.description)
    else input in streams && IsInput(input.description)
  }

  // The search of the format list.
  method IsAvailable(f: Format) returns (found: bool)
    ensures found <==> f in {Raw16, Blob, Rgba8888, ImplementationDefined, YCbCr420, Y16}
  {
    found := false;
    for i := 0 to |kAvailableFormats|
      invariant f !in kAvailableFormats[..i]
    {
      if kAvailableFormats[i] == f {
        return true;
      }
    }
    assert kAvailableFormats[..|kAvailableFormats|] == [Raw16, Blob, Rgba8888, ImplementationDefined, YCbCr420, Y16];
  }

  class StreamTable {
    const sensorWidth: nat
    const sensorHeight: nat
    var status: Status
    var streams: seq<Stream>
    var inputStream: Stream?
    var hasPreviousSettings: bool
    ghost var known: set<Stream>   // every stream the framework has configured so far

    // Among the streams the camera has ever seen, exactly those in the list carry private
    // information, and all of them are alive.
    ghost predicate Valid()
      reads this, known
    {
      && NoDuplicates(streams)
      && Elements(streams) <= known
      && (forall s :: s in known ==> s.priv == if s in Elements(streams) then Info(true) else NoInfo)
      && (inputStream == null || inputStream in streams)
    }

    constructor (sensorWidth: nat, sensorHeight: nat)
      ensures Valid() && streams == [] && known == {} && status == Ready && inputStream == null
      ensures this.sensorWidth == sensorWidth && this.sensorHeight == sensorHeight && !hasPreviousSettings
    {
      this.sensorWidth, this.sensorHeight := sensorWidth, sensorHeight;
      status, streams, inputStream, hasPreviousSettings, known := Ready, [], null, false, {};
    }

    ghost predicate AcceptableList(list: seq<Stream?>)
      reads this, list
    {
      (forall i :: 0 <= i < |list| ==> list[i] != null) && Acceptable(Descriptions(list), sensorWidth, sensorHeight)
    }

    /** The sanity check of the input list. */
    method CheckList(list: seq<Stream?>) returns (ok: bool, input: Stream?)
      ensures ok <==> AcceptableList(list)
      ensures ok && input != null ==> input in list && IsInput(input.description)
      ensures ok && input == null ==> forall s :: s in list && s != null ==> !IsInput(s.description)
    {
      ok, input := false, null;
      if |list| < 1 {
        return;
      }
      for i := 0 to |list|
        invariant forall k :: 0 <= k < i ==>
                    list[k] != null && Supported(list[k].description, sensorWidth, sensorHeight)
        invariant forall j, k :: 0 <= j < k < i && list[j] != null && list[k] != null ==>
                    !(IsInput(list[j].description) && IsInput(list[k].description))
        invariant input != null ==> IsInput(input.description) && exists k :: 0 <= k < i && list[k] == input
        invariant input == null ==> forall k :: 0 <= k < i && list[k] != null ==> !IsInput(list[k].description)
      {
        var s := list[i];
        if s == null {
          return;
        }
        if s.description.kind == Input || s.description.kind == Bidirectional {
          if input != null {
            return;
          }
          input := s;
        }
        if s.description.kind != Input && (s.description.rotation < 0 || s.description.rotation > 3) {
          return;
        }
        if s.description.width == 0 || s.description.height == 0 || s.description.width > sensorWidth
           || s.description.height > sensorHeight {
          return;
        }
        var validFormat := IsAvailable(s.description.format);
        if !validFormat {
          return;
        }
      }
      ok := true;
    }

    /** First pass: mark every stream dead. */
    method MarkDead()
      modifies Elements(streams)`priv
      ensures forall s :: s in Elements(streams) ==> s.priv == Info(false)
    {
      for i := 0 to |streams|
        invariant forall k :: 0 <= k < i ==> streams[k].priv == Info(false)
      {
        streams[i].priv := Info(false);
      }
    }

    // original is the description before the call's first visit to s; a second visit adds nothing.
    method AdoptOne(s: Stream, ghost original: Description)
      requires s.description == original || s.description == Configured(original)
      requires s.priv == NoInfo <==> s !in Elements(streams)
      modifies this`streams, s
      ensures streams == if s in old(streams) then old(streams) else old(streams) + [s]
      ensures Elements(streams) == old(Elements(streams)) + {s}
      ensures s.priv == Info(true) && s.maxBuffers == MAX_BUFFER_COUNT
      ensures s.description == Configured(original)
    {
      if s.priv == NoInfo {
        s.priv := Info(true);
        s.maxBuffers := MAX_BUFFER_COUNT;
        streams := streams + [s];
      } else {
        s.priv := Info(true);
      }
      s.maxBuffers := MAX_BUFFER_COUNT;
      s.description := s.description.(usage := GrantUsage(s.description));
      s.description := s.description.(format := ConcreteFormat(s.description.format, s.description.usage));
    }

    // One turn of the second pass, after the streams of prefix.
    method AdoptNext(s: Stream, ghost before: seq<Stream>, ghost prefix: seq<Stream>, ghost original: Description)
      requires s.description == original || s.description == Configured(original)
      requires s.priv == NoInfo <==> s !in Elements(streams)
      requires streams == Adopted(before, prefix)
      modifies this`streams, s
      ensures streams == Adopted(before, prefix + [s]) && Elements(streams) == old(Elements(streams)) + {s}
      ensures s.priv == Info(true) && s.maxBuffers == MAX_BUFFER_COUNT && s.description == Configured(original)
    {
      AdoptedStep(before, prefix, s);
      AdoptOne(s, original);
    }

    /** Second pass: adopt new streams, revive listed ones, and set usage and format. */
    method Adopt(list: seq<Stream>)
      requires NoDuplicates(streams)
      requires forall s :: s in Elements(list) ==> (s.priv == NoInfo <==> s !in Elements(streams))
      modifies this`streams, Elements(list)
      ensures streams == Adopted(old(streams), list)
      ensures forall s :: s in Elements(list) ==> Settled(s)
    {
      ghost var before, present, all := streams, Elements(streams), Elements(list);
      ghost var prefix: seq<Stream> := [];
      ghost var done: set<Stream> := {};
      for i := 0 to |list|
        invariant prefix == list[..i] && done == Elements(prefix)
        invariant streams == Adopted(before, prefix) && Elements(streams) == present + done
        invariant forall s :: s in all ==> if s in done then Settled(s) else Untouched(s)
      {
        ghost var s := list[i];
        assert s in all;
        ElementsAppend(prefix, s);
        AdoptNext(list[i], before, prefix, old(list[i].description));
        assert Settled(s);
        prefix, done := prefix + [s], done + {s};
      }
      assert list[..|list|] == list;
    }

    /** Third pass: reap the streams still marked dead. */
    method Reap(ghost list: seq<Stream>)
      requires NoDuplicates(streams)
      requires forall s :: s in Elements(streams) ==> s.priv == Info(s in Elements(list))
      modifies this`streams, Elements(streams)`priv
      ensures streams == Kept(old(streams), list)
      ensures forall s :: s in old(Elements(streams)) ==> s.priv == if s in Elements(list) then Info(true) else NoInfo
    {
      ghost var before := streams;
      ghost var done := 0;
      var k := 0;
      assert forall i :: 0 <= i < |before| ==> before[i] in Elements(before);
      while k < |streams|
        invariant 0 <= done <= |before| && k <= |streams|
        invariant streams[..k] == Kept(before[..done], list) && streams[k..] == before[done..]
        invariant forall i :: 0 <= i < |before| ==>
                    before[i].priv == if i < done && before[i] !in list then NoInfo else Info(before[i] in list)
        decreases |before| - done
      {
        ghost var s := before[done];
        assert streams[k] == streams[k..][0] == s;
        assert before[..done + 1] == before[..done] + [s];
        KeptAppend(before[..done], [s], list);
        assert streams[k + 1..] == streams[k..][1..] == before[done + 1..];
        if !streams[k].priv.alive {
          streams[k].priv := NoInfo;
          ghost var tail := streams[k + 1..];
          streams := streams[..k] + streams[k + 1..];
          assert streams[k..] == tail;
        } else {
          assert streams[..k + 1] == streams[..k] + [s];
          k := k + 1;
        }
        done := done + 1;
      }
      assert before[..done] == before && streams[..k] == streams;
    }

    // The three passes over an accepted list.
    method Sweep(list: seq<Stream>)
      requires NoDuplicates(streams)
      requires forall s :: s in Elements(streams) ==> s.priv.Info?
      requires forall s :: s in Elements(list) - Elements(streams) ==> s.priv == NoInfo
      modifies this`streams, Elements(streams) + Elements(list)
      ensures streams == Kept(Adopted(old(streams), list), list)
      ensures NoDuplicates(streams) && Elements(streams) == Elements(list)
      ensures forall s :: s in Elements(list) ==> s.priv == Info(true) && s.maxBuffers == MAX_BUFFER_COUNT
                                                  && s.description == Configured(old(s.description))
      ensures forall s :: s in old(Elements(streams)) - Elements(list) ==>
                s.priv == NoInfo && s.description == old(s.description)
    {
      ghost var before := streams;
      MarkDead();
      AdoptedMembers(before, list);
      Adopt(list);
      KeptMembers(streams, list);
      Reap(list);
    }

    // What an accepted call does.
    method Install(list: seq<Stream>, input: Stream?)
      requires Valid() && (input == null || input in list)
      requires forall s :: s in Elements(list) - known ==> s.priv == NoInfo
      modifies this`streams, this`inputStream, this`hasPreviousSettings, this`known, known + Elements(list)
      ensures Valid()
      ensures Elements(streams) == Elements(list) && inputStream == input && !hasPreviousSettings
      ensures streams == Kept(Adopted(old(streams), list), list)
      ensures forall s :: s in Elements(list) ==>
                s.description == Configured(old(s.description)) && s.maxBuffers == MAX_BUFFER_COUNT
      ensures known == old(known) + Elements(list)
    {
      Sweep(list);
      inputStream := input;
      hasPreviousSettings := false;
      known := known + Elements(list);
      assert input == null || input in Elements(list);
    }

    method InstallAccepted(list: seq<Stream?>, input: Stream?)
      requires Valid() && AcceptableList(list) && (input == null || input in list) && InputOf(input, NotNull(list))
      requires forall s :: s in NotNull(list) - known ==> s.priv == NoInfo
      modifies this`streams, this`inputStream, this`hasPreviousSettings, this`known, known + NotNull(list)
      ensures Valid() && Elements(streams) == NotNull(list) && InputOf(inputStream, Elements(streams))
      ensures forall s :: s in Elements(streams) ==> s.description == Configured(old(s.description))
      ensures forall s :: s in Elements(streams) ==>
                ConfiguredFor(old(s.description), s.description) && s.maxBuffers == 4
      ensures known == old(known) + Elements(streams) && !hasPreviousSettings
      ensures AcceptableList(list) <==> !old(SomeLosesItsFormat(list))
    {
      var streamList := NonNull(list);
      assert Elements(streamList) == NotNull(list);
      ghost var before := Descriptions(list);
      Install(streamList, input);
      AcceptedAgainUnless(before, Descriptions(list), sensorWidth, sensorHeight);
      forall s | s in Elements(streams) ensures ConfiguredFor(old(s.description), s.description) {
        ConfiguredIsFor(old(s.description));
      }
    }

    /** configureStreams. A refusal changes nothing; acceptance leaves exactly the streams
        of the list, survivors first, each configured, and every other stream the camera
        has seen without private information. */
    method ConfigureStreams(arg: StreamList) returns (res: Outcome)
      requires Valid()
      requires arg.Streams? ==> forall s :: s in NotNull(arg.streams) - known ==> s.priv == NoInfo
      modifies this, known + (if arg.Streams? then NotNull(arg.streams) else {})
      ensures Valid() && status == old(status)
      ensures res == NoInit <==> status != Open && status != Ready
      ensures res == Ok <==> (status == Open || status == Ready) && arg.Streams? && old(AcceptableList(arg.streams))
      ensures res != Ok ==> unchanged(this) && unchanged(known)
      ensures res != Ok && arg.Streams? ==> unchanged(NotNull(arg.streams))
      ensures res == Ok ==>
                && Elements(streams) == NotNull(arg.streams)
                && (forall s :: s in Elements(streams) ==> s.description == Configured(old(s.description)))
                && (forall s :: s in Elements(streams) ==>
                      ConfiguredFor(old(s.description), s.description) && s.maxBuffers == 4)
                && InputOf(inputStream, Elements(streams))
                && known == old(known) + Elements(streams) && !hasPreviousSettings
                && (AcceptableList(arg.streams) <==> !old(SomeLosesItsFormat(arg.streams)))
    {
      if status != Open && status != Ready {
        return NoInit;
      }
      if !arg.Streams? {
        return BadValue;
      }
      var ok, input := CheckList(arg.streams);
      if !ok {
        return BadValue;
      }
      InstallAccepted(arg.streams, input);
      return Ok;
    }

    /** Two calls with the same list: if the first is accepted, the second is accepted exactly
        when no stream of the list had an implementation-defined format that the first call
        turned into RGB_888. */
    method ConfigureTwice(list: seq<Stream?>) returns (first: Outcome, second: Outcome)
      requires Valid() && (status == Open || status == Ready)
      requires forall s :: s in NotNull(list) - known ==> s.priv == NoInfo
      modifies this, known + NotNull(list)
      ensures Valid()
      ensures first == Ok <==> old(AcceptableList(list))
      ensures first == Ok ==> (second == Ok <==> !old(SomeLosesItsFormat(list)))
      ensures first == Ok ==> Elements(streams) == NotNull(list)
    {
      first := ConfigureStreams(Streams(list));
      second := ConfigureStreams(Streams(list));
    }

    ghost predicate GoodBuffer(b: RequestBuffer)
      reads this
    {
      b.stream in streams && b.statusOk && b.releaseFence == -1 && b.hasHandle
    }

    // What processCaptureRequest demands before it starts on a request.
    ghost predicate AcceptableRequest(r: CaptureRequest)
      reads this
    {
      && (status == Ready || status == Active)
      && r.CaptureRequest?
      && (r.hasSettings || hasPreviousSettings)
      && r.outputs != []
      && (r.input.InputFrom? ==> r.input.buffer.stream == inputStream && GoodBuffer(r.input.buffer))
      && (forall i :: 0 <= i < |r.outputs| ==> GoodBuffer(r.outputs[i]))
    }

    method CheckBuffer(b: RequestBuffer) returns (ok: bool)
      requires Valid() && (b.stream in known || b.stream.priv == NoInfo)
      ensures ok <==> GoodBuffer(b)
    {
      assert b.stream in streams <==> b.stream in Elements(streams);
      ok := b.stream.priv != NoInfo && b.stream.priv.alive && b.statusOk && b.releaseFence == -1 && b.hasHandle;
    }

    /** The validation at the head of processCaptureRequest: it passes exactly when the
        request is well formed and every buffer, the input included, is from a stream of
        the last accepted configuration. */
    method ValidateRequest(r: CaptureRequest) returns (res: Outcome)
      requires Valid()
      requires r.CaptureRequest? ==>
                 && (r.input.InputFrom? ==> r.input.buffer.stream in known || r.input.buffer.stream.priv == NoInfo)
                 && (forall i :: 0 <= i < |r.outputs| ==>
                       r.outputs[i].stream in known || r.outputs[i].stream.priv == NoInfo)
      ensures res == Ok <==> AcceptableRequest(r)
      ensures res == InvalidOperation <==> status != Ready && status != Active
    {
      if status != Ready && status != Active {
        return InvalidOperation;
      }
      if r.NullRequest? || (!r.hasSettings && !hasPreviousSettings) {
        return BadValue;
      }
      if r.input.InputFrom? && r.input.buffer.stream != inputStream {
        return BadValue;
      }
      if |r.outputs| < 1 {
        return BadValue;
      }
      var idx := if r.input.InputFrom? then -1 else 0;
      while idx < |r.outputs|
        invariant -1 <= idx <= |r.outputs| && (idx == -1 ==> r.input.InputFrom?)
        invariant idx >= 0 && r.input.InputFrom? ==> GoodBuffer(r.input.buffer)
        invariant forall i :: 0 <= i < idx ==> GoodBuffer(r.outputs[i])
      {
        var ok := CheckBuffer(if idx == -1 then r.input.buffer else r.outputs[idx]);
        if !ok {
          return BadValue;
        }
        idx := idx + 1;
      }
      return Ok;
    }

    /** processCaptureRequest as far as the settings go; works says whether the rest of the call
        succeeds. A request without settings takes the cached ones, and they are only put back
        at the OK return: a call that fails after that has lost them. */
    method ProcessRequest(r: CaptureRequest, works: bool) returns (res: Outcome)
      requires Valid()
      requires r.CaptureRequest? ==>
                 && (r.input.InputFrom? ==> r.input.buffer.stream in known || r.input.buffer.stream.priv == NoInfo)
                 && (forall i :: 0 <= i < |r.outputs| ==>
                       r.outputs[i].stream in known || r.outputs[i].stream.priv == NoInfo)
      modifies this`status, this`hasPreviousSettings
      ensures Valid() && (res == Ok <==> old(AcceptableRequest(r)) && works)
      ensures !old(AcceptableRequest(r)) ==> unchanged(this)
      ensures old(AcceptableRequest(r)) ==>
                status == Active && (hasPreviousSettings <==> works || (old(hasPreviousSettings) && r.hasSettings))
    {
      res := ValidateRequest(r);
      if res != Ok {
        return;
      }
      status := Active;
      if !r.hasSettings {
        hasPreviousSettings := false;
      }
      if !works {
        return NoInit;
      }
      hasPreviousSettings := true;
    }

    /** So a request without settings is refused right after one that failed, and passes right
        after one that worked. */
    method RepeatRequest(r: CaptureRequest, works: bool) returns (first: Outcome, second: Outcome)
      requires Valid() && r.CaptureRequest? && !r.hasSettings
      requires r.input.InputFrom? ==> r.input.buffer.stream in known || r.input.buffer.stream.priv == NoInfo
      requires forall i :: 0 <= i < |r.outputs| ==> r.outputs[i].stream in known || r.outputs[i].stream.priv == NoInfo
      modifies this`status, this`hasPreviousSettings
      ensures old(AcceptableRequest(r)) ==> (first == Ok <==> works) && (second == Ok <==> works)
    {
      first := ProcessRequest(r, works);
      second := ProcessRequest(r, true);
    }
  }

  ghost function NotNull(list: seq<Stream?>): set<Stream> {
    set s: Stream | s in list
  }

  function NonNull(list: seq<Stream?>): (r: seq<Stream>)
    requires forall i :: 0 <= i < |list| ==> list[i] != null
    ensures |r| == |list| && forall i :: 0 <= i < |list| ==> r[i] == list[i]
    ensures (forall s :: s in r ==> s in list) && (forall s :: s in list ==> s in r)
  {
    if list == [] then [] else [list[0]] + NonNull(list[1..])
  }

  /** The failing input, through the object itself. */
  method ZslStreamIsRefusedAgain(width: nat, height: nat, sensorWidth: nat, sensorHeight: nat)
    returns (first: Outcome, second: Outcome)
    requires 0 < width <= sensorWidth && 0 < height <= sensorHeight
    ensures first == Ok && second != Ok
  {
    var table := new StreamTable(sensorWidth, sensorHeight);
    var stream := new Stream(ZslOutput(width, height));
    ZslOutputLosesItsFormat(width, height, sensorWidth, sensorHeight);
    ghost var list: seq<Stream?> := [stream];
    assert Descriptions(list) == [ZslOutput(width, height)];
    assert SomeLosesItsFormat(list) by {
      assert list[0] == stream;
    }
    first, second := table.ConfigureTwice([stream]);
  }
}
