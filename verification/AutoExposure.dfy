/**
 The fake auto-exposure of the HAL3 cameras. Exposure times are nanoseconds. The tracking
 step is computed in single precision; it is modelled for any rounding function with the
 properties IEEE 754 single precision has below 2^26, where every value of the loop lies.
 */
module AutoExposure {

  const NORMAL := 10_000_000
  const FACE_PRIORITY := 30_000_000
  const MIN_EXPOSURE := 2_500_000    // normal target, two stops down
  const MAX_EXPOSURE := 60_000_000   // face priority target, one stop up
  const PRECAPTURE_MIN_FRAMES := 10
  const STABLE_MAX_FRAMES := 100

  // The float nearest to 0.2.
  const TRACK_RATE: real := 13421773.0 / 67108864.0

  // r is a possible single precision value for x, with |x| <= 2^26: integers up to 2^24 are
  // exact, the spacing above 2^25 is 4, and rounding never crosses a multiple of 4.
  predicate Rounds(x: real, r: real) {
    && -2.0 <= r - x <= 2.0
    && (-16777216.0 <= x <= 16777216.0 ==>
          -0.5 <= r - x <= 0.5 && (x.Floor as real == x ==> r == x))
    && 4.0 * ((x / 4.0).Floor as real) <= r <= -4.0 * ((-x / 4.0).Floor as real)
    && (x <= -33554432.0 || 33554432.0 <= x ==> 4.0 * ((r / 4.0).Floor as real) == r)
  }

  ghost predicate SinglePrecision(round: real -> real) {
    forall x :: -67108864.0 <= x <= 67108864.0 ==> Rounds(x, round(x))
  }

  // The assumption can be met: rounding to multiples of 4 above 2^24 is one such function.
  function CoarseRound(x: real): real {
    if -16777216.0 <= x <= 16777216.0 then x else 4.0 * ((x / 4.0 + 0.5).Floor as real)
  }

  lemma CoarseRounds(x: real)
    ensures Rounds(x, CoarseRound(x))
  {
    if !(-16777216.0 <= x <= 16777216.0) {
      var q := (x / 4.0 + 0.5).Floor;
      var low, high := (x / 4.0).Floor, (-x / 4.0).Floor;
      assert low <= q && q <= -high;
      assert ((4.0 * q as real) / 4.0).Floor == q;
    } else {
      assert 4.0 * ((x / 4.0).Floor as real) <= x <= -4.0 * ((-x / 4.0).Floor as real);
    }
  }

  lemma CoarseRoundIsSinglePrecision()
    ensures SinglePrecision(CoarseRound)
  {
    forall x: real
      ensures Rounds(x, CoarseRound(x))
    {
      CoarseRounds(x);
    }
  }

  // current += (target - current) * rate, with the conversions C++ inserts.
  function Track(round: real -> real, current: int, target: int): int {
    round(round(current as real) + round(round((target - current) as real) * TRACK_RATE)).Floor
  }

  predicate InRange(t: int) {
    MIN_EXPOSURE <= t <= MAX_EXPOSURE
  }

  // The four roundings of one tracking step: g of the gap, p of the product, f of the
  // current value and s of the sum.
  predicate Roundings(current: int, target: int, g: real, p: real, f: real, s: real) {
    && Rounds((target - current) as real, g) && Rounds(g * TRACK_RATE, p)
    && Rounds(current as real, f) && Rounds(f + p, s)
  }

  lemma SumBounds(current: int, target: int, g: real, p: real, f: real, s: real)
    requires InRange(current) && InRange(target) && Roundings(current, target, g, p, f, s)
    ensures 4 * (target - current) - 35 <= 5 * (target - s.Floor) <= 4 * (target - current) + 35
  {
  }

  lemma StaysBelow(current: int, target: int, g: real, p: real, f: real, s: real)
    requires InRange(current) && InRange(target) && Roundings(current, target, g, p, f, s)
    ensures s <= MAX_EXPOSURE as real
  {
  }

  lemma StaysAbove(current: int, target: int, g: real, p: real, f: real, s: real)
    requires InRange(current) && InRange(target) && Roundings(current, target, g, p, f, s)
    ensures s >= MIN_EXPOSURE as real
  {
  }

  lemma RoundsAt(round: real -> real, x: real)
    requires SinglePrecision(round) && -67108864.0 <= x <= 67108864.0
    ensures Rounds(x, round(x)) && x - 2.0 <= round(x) <= x + 2.0
  {
  }

  lemma RangeOfSum(current: int, target: int, g: real, p: real, f: real)
    requires InRange(current) && InRange(target)
    requires Rounds((target - current) as real, g) && Rounds(g * TRACK_RATE, p) && Rounds(current as real, f)
    ensures 0.0 <= f + p <= 67108864.0
  {
  }

  lemma ProductRoundings(round: real -> real, gap: int)
    requires SinglePrecision(round) && -57_500_000 <= gap <= 57_500_000
    ensures Rounds(gap as real, round(gap as real))
    ensures Rounds(round(gap as real) * TRACK_RATE, round(round(gap as real) * TRACK_RATE))
  {
  }

  lemma StepRoundings(round: real -> real, current: int, target: int) returns (g: real, p: real, f: real, s: real)
    requires SinglePrecision(round) && InRange(current) && InRange(target)
    ensures Roundings(current, target, g, p, f, s) && Track(round, current, target) == s.Floor
  {
    g := round((target - current) as real);
    p := round(g * TRACK_RATE);
    f := round(current as real);
    s := round(f + p);
    ProductRoundings(round, target - current);
    RoundsAt(round, current as real);
    RangeOfSum(current, target, g, p, f);
    RoundsAt(round, f + p);
  }

  /** One tracking step stays in range and takes off a fifth of the gap, up to 7 ns. */
  lemma TrackStep(round: real -> real, current: int, target: int)
    requires SinglePrecision(round) && InRange(current) && InRange(target)
    ensures InRange(Track(round, current, target))
    ensures 4 * (target - current) - 35 <= 5 * (target - Track(round, current, target)) <= 4 * (target - current) + 35
  {
    var g, p, f, s := StepRoundings(round, current, target);
    SumBounds(current, target, g, p, f, s);
    StaysBelow(current, target, g, p, f, s);
    StaysAbove(current, target, g, p, f, s);
  }

  // A tracking step as the state machine sees it.
  type Tracker = (int, int) -> int

  predicate Follows(track: Tracker, current: int, target: int) {
    && InRange(track(current, target))
    && 4 * (target - current) - 35 <= 5 * (target - track(current, target)) <= 4 * (target - current) + 35
  }

  ghost predicate Tracks(track: Tracker) {
    forall current, target :: InRange(current) && InRange(target) ==> Follows(track, current, target)
  }

  /** What the state machine assumes of its tracking step holds in single precision. */
  lemma SinglePrecisionTracks(round: real -> real)
    requires SinglePrecision(round)
    ensures Tracks((current, target) => Track(round, current, target))
  {
    forall current, target | InRange(current) && InRange(target)
      ensures Follows((current, target) => Track(round, current, target), current, target)
    {
      TrackStep(round, current, target);
    }
  }

  // ----- The state machine -----

  datatype AeState = Inactive | Searching | Converged | Locked | FlashRequired | Precapture

  datatype Scene = NoScene | FacePriority | OtherScene

  datatype Control = NoControl | ControlOff | ControlAuto | UseScene(scene: Scene)

  datatype AeMode = NoMode | ModeOff | ModeOn | OtherMode

  // The entries of a request's settings that auto-exposure looks at. wander is the factor a
  // random exposure step of -2 to +1 stops gives, should this request start a new search.
  datatype Settings = Settings(control: Control, mode: AeMode, locked: bool, trigger: bool, wander: real)

  predicate WellFormed(e: Settings) {
    0.25 <= e.wander <= 2.0
  }

  datatype Ae = Ae(state: AeState, counter: int, current: int, target: int, facePriority: bool)

  datatype Outcome = Ok | BadValue | UnexpectedState

  // State after connectCamera.
  const Connected := Ae(Inactive, 0, NORMAL, NORMAL, false)

  function BaseTarget(ae: Ae): int {
    if ae.facePriority then FACE_PRIORITY else NORMAL
  }

  function Wander(base: int, factor: real): int {
    (base as real * factor).Floor
  }

  function Magnitude(x: int): nat {
    if x < 0 then -x else x
  }

  function PrecaptureStep(track: Tracker, ae: Ae, e: Settings): Ae {
    var target := BaseTarget(ae);
    var counter := if ae.state != Precapture then 0 else ae.counter;
    if counter > PRECAPTURE_MIN_FRAMES && target - ae.current < target / 10 then
      ae.(target := target, counter := 0, state := if e.locked then Locked else Converged)
    else
      ae.(target := target, counter := counter + 1, state := Precapture,
          current := track(ae.current, target))
  }

  function ScanStep(track: Tracker, ae: Ae, e: Settings): (Ae, Outcome) {
    match ae.state
    case Inactive => (ae.(state := Searching), Ok)
    case Converged =>
      if ae.counter + 1 > STABLE_MAX_FRAMES then
        (ae.(counter := ae.counter + 1, state := Searching,
             target := Wander(BaseTarget(ae), e.wander)), Ok)
      else
        (ae.(counter := ae.counter + 1), Ok)
    case Searching =>
      var current := track(ae.current, ae.target);
      if Magnitude(ae.target - current) < ae.target / 10 then
        (ae.(current := current, state := Converged, counter := 0), Ok)
      else
        (ae.(current := current), Ok)
    case Locked => (ae.(state := Converged, counter := 0), Ok)
    case _ => (ae, UnexpectedState)
  }

  // doFakeAE.
  function DoFakeAe(track: Tracker, compatible: bool, ae: Ae, e: Settings): (Ae, Outcome) {
    if e.mode == NoMode && compatible then (ae, BadValue)
    else if e.mode == ModeOff then (ae.(state := Inactive), Ok)
    else if e.trigger || ae.state == Precapture then (PrecaptureStep(track, ae, e), Ok)
    else if !e.locked then ScanStep(track, ae, e)
    else (ae.(state := Locked), Ok)
  }

  // The part of process3A that concerns auto-exposure.
  function Process(track: Tracker, compatible: bool, ae: Ae, e: Settings): (Ae, Outcome) {
    match e.control
    case NoControl => (ae, BadValue)
    case ControlOff => (ae.(state := Inactive), Ok)
    case UseScene(scene) =>
      if !compatible || scene != FacePriority then (ae, BadValue)
      else DoFakeAe(track, compatible, ae.(facePriority := true), e)
    case ControlAuto => DoFakeAe(track, compatible, ae.(facePriority := false), e)
  }

  class AutoExposureControl {
    const compatible: bool
    var state: AeState
    var counter: int
    var current: int
    var target: int
    var facePriority: bool

    ghost function View(): Ae
      reads this
    {
      Ae(state, counter, current, target, facePriority)
    }

    constructor (compatible: bool)
      ensures View() == Connected && this.compatible == compatible
    {
      this.compatible := compatible;
      state, counter, current, target, facePriority := Inactive, 0, NORMAL, NORMAL, false;
    }

    method ProcessRequest(track: Tracker, e: Settings) returns (res: Outcome)
      modifies this
      ensures (View(), res) == Process(track, compatible, old(View()), e)
    {
      match e.control {
        case NoControl => return BadValue;
        case ControlOff =>
          state := Inactive;
          return Ok;
        case UseScene(scene) =>
          if !compatible || scene != FacePriority {
            return BadValue;
          }
          facePriority := true;
        case ControlAuto =>
          facePriority := false;
      }
      res := DoFake(track, e);
    }

    method DoFake(track: Tracker, e: Settings) returns (res: Outcome)
      modifies this
      ensures (View(), res) == DoFakeAe(track, compatible, old(View()), e)
    {
      if e.mode == NoMode && compatible {
        return BadValue;
      }
      if e.mode == ModeOff {
        state := Inactive;
        return Ok;
      }
      if e.trigger || state == Precapture {
        if state != Precapture {
          counter := 0;
        }
        target := if facePriority then FACE_PRIORITY else NORMAL;
        if counter > PRECAPTURE_MIN_FRAMES && target - current < target / 10 {
          counter := 0;
          state := if e.locked then Locked else Converged;
        } else {
          current := track(current, target);
          counter := counter + 1;
          state := Precapture;
        }
      } else if !e.locked {
        res := Scan(track, e);
        return;
      } else {
        state := Locked;
      }
      return Ok;
    }

    method Scan(track: Tracker, e: Settings) returns (res: Outcome)
      modifies this
      ensures (View(), res) == ScanStep(track, old(View()), e)
    {
      match state {
        case Inactive => state := Searching;
        case Converged =>
          counter := counter + 1;
          if counter > STABLE_MAX_FRAMES {
            target := if facePriority then FACE_PRIORITY else NORMAL;
            target := Wander(target, e.wander);
            state := Searching;
          }
        case Searching =>
          current := track(current, target);
          if Magnitude(target - current) < target / 10 {
            state := Converged;
            counter := 0;
          }
        case Locked =>
          state := Converged;
          counter := 0;
        case _ => return UnexpectedState;
      }
      return Ok;
    }
  }

  // ----- Every run -----

  predicate Healthy(ae: Ae) {
    ae.state != FlashRequired && InRange(ae.current) && InRange(ae.target)
  }

  // The state after the first k requests, refused ones included.
  function After(track: Tracker, compatible: bool, ae: Ae, es: seq<Settings>, k: nat): Ae
    requires k <= |es|
  {
    if k == 0 then ae
    else Process(track, compatible, After(track, compatible, ae, es, k - 1), es[k - 1]).0
  }

  lemma RequestKeepsHealthy(track: Tracker, compatible: bool, ae: Ae, e: Settings)
    requires Tracks(track) && Healthy(ae) && WellFormed(e)
    ensures Healthy(Process(track, compatible, ae, e).0)
    ensures Process(track, compatible, ae, e).1 != UnexpectedState
  {
    assert Follows(track, ae.current, ae.target);
    assert Follows(track, ae.current, BaseTarget(ae.(facePriority := e.control.UseScene?)));
  }

  /** On every run the exposure stays between 2.5 ms and 60 ms and the branch for an
      unexpected state is never taken. */
  lemma {:induction false} ExposureAlwaysInRange(track: Tracker, compatible: bool, es: seq<Settings>, k: nat)
    requires Tracks(track) && k <= |es| && forall e :: e in es ==> WellFormed(e)
    ensures Healthy(After(track, compatible, Connected, es, k))
    ensures k < |es| ==>
              Process(track, compatible, After(track, compatible, Connected, es, k), es[k]).1 != UnexpectedState
  {
    if k > 0 {
      ExposureAlwaysInRange(track, compatible, es, k - 1);
      RequestKeepsHealthy(track, compatible, After(track, compatible, Connected, es, k - 1), es[k - 1]);
    }
    if k < |es| {
      RequestKeepsHealthy(track, compatible, After(track, compatible, Connected, es, k), es[k]);
    }
  }

  // A request that leaves auto-exposure on.
  predicate LeavesAeOn(compatible: bool, e: Settings) {
    && (e.control == ControlAuto || (compatible && e.control == UseScene(FacePriority)))
    && e.mode != ModeOff && !(e.mode == NoMode && compatible)
  }

  predicate Plain(compatible: bool, e: Settings) {
    LeavesAeOn(compatible, e) && !e.locked && !e.trigger
  }

  function Gap(ae: Ae): nat {
    Magnitude(ae.target - ae.current)
  }

  // ----- Refused requests, and auto-exposure switched off -----

  predicate Refused(compatible: bool, e: Settings) {
    || e.control == NoControl
    || (e.control.UseScene? && !(compatible && e.control.scene == FacePriority))
    || (e.control != ControlOff && e.mode == NoMode && compatible)
  }

  predicate SameExposure(ae: Ae, ae': Ae) {
    ae'.current == ae.current && ae'.target == ae.target && ae'.counter == ae.counter
  }

  /** Exactly the requests without a control mode, with a scene other than face priority, or
      without an exposure mode on a camera that needs one are refused, and a refusal leaves
      state and exposure alone. */
  lemma RefusedIff(track: Tracker, compatible: bool, ae: Ae, e: Settings)
    ensures Process(track, compatible, ae, e).1 == BadValue <==> Refused(compatible, e)
    ensures Refused(compatible, e) ==>
              && SameExposure(ae, Process(track, compatible, ae, e).0)
              && Process(track, compatible, ae, e).0.state == ae.state
  {
  }

  /** Every request that gets past the scene check says whether faces have priority, refused
      later or not; every other leaves that alone. */
  lemma FacePriorityFollows(track: Tracker, compatible: bool, ae: Ae, e: Settings)
    ensures Process(track, compatible, ae, e).0.facePriority
         == if e.control == ControlAuto then false
            else if compatible && e.control == UseScene(FacePriority) then true
            else ae.facePriority
  {
  }

  // Control off, or exposure off under a control mode that is accepted.
  predicate TurnsAeOff(compatible: bool, e: Settings) {
    || e.control == ControlOff
    || (e.mode == ModeOff && (e.control == ControlAuto || (compatible && e.control == UseScene(FacePriority))))
  }

  /** Switched off, it is INACTIVE and the exposure stays; the next plain request searches from
      there. */
  lemma OffIsInactive(track: Tracker, compatible: bool, ae: Ae, e: Settings, next: Settings)
    requires TurnsAeOff(compatible, e) && Plain(compatible, next)
    ensures var off := Process(track, compatible, ae, e).0;
            var on := Process(track, compatible, off, next).0;
            off.state == Inactive && SameExposure(ae, off) && on.state == Searching && SameExposure(ae, on)
  {
  }

  // ----- The lock -----

  // Locked, with auto-exposure left on and no precapture trigger.
  predicate Locks(compatible: bool, e: Settings) {
    LeavesAeOn(compatible, e) && e.locked && !e.trigger
  }

  lemma LockedRequest(track: Tracker, compatible: bool, ae: Ae, e: Settings)
    requires Locks(compatible, e) && ae.state != Precapture
    ensures var (ae', res) := Process(track, compatible, ae, e);
            res == Ok && ae'.state == Locked && SameExposure(ae, ae')
  {
  }

  /** The lock holds: along any number of locked requests outside a precapture sequence the state
      is LOCKED and the exposure does not move, and the first unlocked one gives CONVERGED, still
      at the same exposure. */
  lemma {:induction false} LockHolds(track: Tracker, compatible: bool, ae: Ae, es: seq<Settings>, k: nat,
                                     next: Settings)
    requires ae.state != Precapture && 1 <= k <= |es| && forall i :: 0 <= i < |es| ==> Locks(compatible, es[i])
    requires Plain(compatible, next)
    ensures var locked := After(track, compatible, ae, es, k);
            var unlocked := Process(track, compatible, locked, next).0;
            && locked.state == Locked && SameExposure(ae, locked)
            && unlocked.state == Converged && unlocked.counter == 0
            && unlocked.current == ae.current && unlocked.target == ae.target
  {
    if k > 1 {
      LockHolds(track, compatible, ae, es, k - 1, next);
    } else {
      assert After(track, compatible, ae, es, 0) == ae;
    }
    var last := After(track, compatible, ae, es, k - 1);
    LockedRequest(track, compatible, last, es[k - 1]);
    assert After(track, compatible, ae, es, k) == Process(track, compatible, last, es[k - 1]).0;
  }

  // ----- The stable time -----

  lemma StableRequest(track: Tracker, compatible: bool, ae: Ae, e: Settings)
    requires ae.state == Converged && Plain(compatible, e)
    ensures var ae' := Process(track, compatible, ae, e).0;
            && ae'.current == ae.current && ae'.counter == ae.counter + 1
            && (ae.counter < STABLE_MAX_FRAMES ==> ae'.state == Converged && ae'.target == ae.target)
            && (ae.counter >= STABLE_MAX_FRAMES ==>
                  && ae'.state == Searching
                  && ae'.target == Wander(if e.control.UseScene? then FACE_PRIORITY else NORMAL, e.wander))
  {
  }

  lemma {:induction false} StableFor(track: Tracker, compatible: bool, ae: Ae, es: seq<Settings>, k: nat)
    requires ae.state == Converged && ae.counter == 0 && k <= 100 && k <= |es|
    requires forall i :: 0 <= i < |es| ==> Plain(compatible, es[i])
    ensures var ae' := After(track, compatible, ae, es, k);
            ae'.state == Converged && ae'.counter == k && ae'.current == ae.current && ae'.target == ae.target
  {
    if k > 0 {
      StableFor(track, compatible, ae, es, k - 1);
      var last := After(track, compatible, ae, es, k - 1);
      StableRequest(track, compatible, last, es[k - 1]);
      assert After(track, compatible, ae, es, k) == Process(track, compatible, last, es[k - 1]).0;
    }
  }

  /** Once converged, it stays so, at the same exposure, for exactly 100 plain requests; the 101st
      starts a search for a target within two stops down and one up of the scene's own. */
  lemma StableForAHundred(track: Tracker, compatible: bool, ae: Ae, es: seq<Settings>)
    requires ae.state == Converged && ae.counter == 0 && |es| == 101
    requires forall i :: 0 <= i < |es| ==> Plain(compatible, es[i])
    ensures forall k :: 0 <= k <= 100 ==>
              && After(track, compatible, ae, es, k).state == Converged
              && After(track, compatible, ae, es, k).current == ae.current
    ensures var ae' := After(track, compatible, ae, es, 101);
            && ae'.state == Searching && ae'.current == ae.current
            && ae'.target == Wander(if es[100].control.UseScene? then FACE_PRIORITY else NORMAL, es[100].wander)
  {
    forall k | 0 <= k <= 100
      ensures After(track, compatible, ae, es, k).state == Converged
      ensures After(track, compatible, ae, es, k).current == ae.current
    {
      StableFor(track, compatible, ae, es, k);
    }
    StableFor(track, compatible, ae, es, 100);
    var last := After(track, compatible, ae, es, 100);
    StableRequest(track, compatible, last, es[100]);
    assert After(track, compatible, ae, es, 101) == Process(track, compatible, last, es[100]).0;
  }

  // ----- Searching -----

  /** While a search goes on, each request brings the exposure closer to its target. */
  lemma SearchShrinksGap(track: Tracker, compatible: bool, ae: Ae, e: Settings)
    requires Tracks(track) && Healthy(ae) && ae.state == Searching && Plain(compatible, e)
    ensures var ae' := Process(track, compatible, ae, e).0;
            && ae'.target == ae.target
            && 5 * Gap(ae') <= 4 * Gap(ae) + 35
            && (ae'.state == Converged || ae'.state == Searching)
            && (ae'.state == Converged <==> Gap(ae') < ae.target / 10)
            && (ae'.state == Converged ==> ae'.counter == 0)
            && (ae'.state == Searching ==> Gap(ae') < Gap(ae))
  {
  }

  // What 5 * gap' <= 4 * gap + 35 leaves of a gap after n steps.
  function Bound(n: nat, start: real): real {
    if n == 0 then start else 0.8 * Bound(n - 1, start) + 7.0
  }

  lemma BoundAt25()
    ensures Bound(25, 57_500_000.0) < 250_000.0
  {
    assert Bound(5, 57_500_000.0) <= 18_842_000.0;
    assert Bound(10, 57_500_000.0) <= 6_174_200.0;
    assert Bound(15, 57_500_000.0) <= 2_023_300.0;
    assert Bound(20, 57_500_000.0) <= 663_100.0;
  }

  // Still searching, with at most the n-th bound left.
  predicate SearchingWithin(ae: Ae, n: nat) {
    Healthy(ae) && ae.state == Searching && Gap(ae) as real <= Bound(n, 57_500_000.0)
  }

  lemma SearchStep(track: Tracker, compatible: bool, ae: Ae, e: Settings, n: nat)
    requires Tracks(track) && SearchingWithin(ae, n) && Plain(compatible, e)
    ensures var ae' := Process(track, compatible, ae, e).0;
            ae'.state == Converged || (SearchingWithin(ae', n + 1) && Gap(ae') >= 250_000)
  {
  }

  lemma SearchNext(track: Tracker, compatible: bool, ae: Ae, es: seq<Settings>, k: nat)
    requires Tracks(track) && 1 <= k <= |es| && Plain(compatible, es[k - 1])
    requires SearchingWithin(After(track, compatible, ae, es, k - 1), k - 1)
    requires After(track, compatible, ae, es, k).state != Converged
    ensures SearchingWithin(After(track, compatible, ae, es, k), k)
    ensures Gap(After(track, compatible, ae, es, k)) >= 250_000
  {
    SearchStep(track, compatible, After(track, compatible, ae, es, k - 1), es[k - 1], k - 1);
  }

  lemma {:induction false} SearchAfter(track: Tracker, compatible: bool, ae: Ae, es: seq<Settings>, k: nat)
    requires Tracks(track) && SearchingWithin(ae, 0)
    requires k <= |es| && forall i :: 0 <= i < |es| ==> Plain(compatible, es[i])
    requires forall j :: 0 <= j <= k ==> After(track, compatible, ae, es, j).state != Converged
    ensures SearchingWithin(After(track, compatible, ae, es, k), k)
    ensures k > 0 ==> Gap(After(track, compatible, ae, es, k)) >= 250_000
  {
    if k > 0 {
      SearchAfter(track, compatible, ae, es, k - 1);
      SearchNext(track, compatible, ae, es, k);
    }
  }

  /** A search ends: within 25 unlocked, trigger-free requests the state is CONVERGED. */
  lemma SearchConverges(track: Tracker, compatible: bool, ae: Ae, es: seq<Settings>)
    requires Tracks(track) && Healthy(ae) && ae.state == Searching
    requires |es| == 25 && forall i :: 0 <= i < |es| ==> Plain(compatible, es[i])
    ensures exists k :: 1 <= k <= 25 && After(track, compatible, ae, es, k).state == Converged
  {
    if forall j :: 0 <= j <= 25 ==> After(track, compatible, ae, es, j).state != Converged {
      SearchAfter(track, compatible, ae, es, 25);
      BoundAt25();
    }
    assert After(track, compatible, ae, es, 0).state == Searching;
  }

  predicate SameFacePriority(es: seq<Settings>) {
    forall i, j :: 0 <= i < j < |es| ==> (es[i].control.UseScene? <==> es[j].control.UseScene?)
  }

  lemma PrecaptureStepOnce(track: Tracker, compatible: bool, ae: Ae, e: Settings, steps: nat)
    requires Tracks(track) && Healthy(ae) && LeavesAeOn(compatible, e)
    requires if steps == 0 then ae.state != Precapture && e.trigger else ae.state == Precapture && ae.counter == steps
    requires steps <= PRECAPTURE_MIN_FRAMES
    ensures var ae' := Process(track, compatible, ae, e).0;
            && Healthy(ae') && ae'.state == Precapture && ae'.counter == steps + 1
            && ae'.target == PrecaptureTarget(e)
            && 5 * (ae'.target - ae'.current) <= 4 * (ae'.target - ae.current) + 35
  {
    assert Follows(track, ae.current, PrecaptureTarget(e));
  }

  function PrecaptureTarget(e: Settings): int {
    if e.control.UseScene? then FACE_PRIORITY else NORMAL
  }

  predicate PrecaptureWithin(ae: Ae, target: int, n: nat) {
    && Healthy(ae) && ae.state == Precapture && ae.counter == n && ae.target == target
    && (target - ae.current) as real <= Bound(n, target as real)
  }

  lemma PrecaptureBegins(track: Tracker, compatible: bool, ae: Ae, e: Settings)
    requires Tracks(track) && Healthy(ae) && LeavesAeOn(compatible, e) && ae.state != Precapture && e.trigger
    ensures PrecaptureWithin(Process(track, compatible, ae, e).0, PrecaptureTarget(e), 1)
  {
    PrecaptureStepOnce(track, compatible, ae, e, 0);
  }

  lemma PrecaptureGoesOn(track: Tracker, compatible: bool, ae: Ae, e: Settings, n: nat)
    requires Tracks(track) && LeavesAeOn(compatible, e) && 1 <= n <= PRECAPTURE_MIN_FRAMES
    requires PrecaptureWithin(ae, PrecaptureTarget(e), n)
    ensures PrecaptureWithin(Process(track, compatible, ae, e).0, PrecaptureTarget(e), n + 1)
  {
  }

  // The k-th request of a precapture sequence.
  lemma PrecaptureFirst(track: Tracker, compatible: bool, ae: Ae, es: seq<Settings>, target: int)
    requires Tracks(track) && Healthy(ae) && ae.state != Precapture && es != []
    requires es[0].trigger && LeavesAeOn(compatible, es[0]) && PrecaptureTarget(es[0]) == target
    ensures PrecaptureWithin(After(track, compatible, ae, es, 1), target, 1)
  {
    PrecaptureBegins(track, compatible, ae, es[0]);
    assert After(track, compatible, ae, es, 0) == ae;
  }

  lemma PrecaptureNext(track: Tracker, compatible: bool, ae: Ae, es: seq<Settings>, k: nat, target: int)
    requires Tracks(track) && 2 <= k <= 11 && k <= |es|
    requires LeavesAeOn(compatible, es[k - 1]) && PrecaptureTarget(es[k - 1]) == target
    requires PrecaptureWithin(After(track, compatible, ae, es, k - 1), target, k - 1)
    ensures PrecaptureWithin(After(track, compatible, ae, es, k), target, k)
  {
    PrecaptureGoesOn(track, compatible, After(track, compatible, ae, es, k - 1), es[k - 1], k - 1);
  }

  predicate AimsAt(compatible: bool, e: Settings, target: int) {
    LeavesAeOn(compatible, e) && PrecaptureTarget(e) == target
  }

  lemma {:induction false} PrecaptureAfter(track: Tracker, compatible: bool, ae: Ae, es: seq<Settings>, k: nat,
                                           target: int)
    requires Tracks(track) && Healthy(ae) && ae.state != Precapture
    requires 1 <= k <= 11 && k <= |es| && es[0].trigger
    requires forall i :: 0 <= i < |es| ==> AimsAt(compatible, es[i], target)
    ensures PrecaptureWithin(After(track, compatible, ae, es, k), target, k)
  {
    assert AimsAt(compatible, es[k - 1], target);
    if k == 1 {
      PrecaptureFirst(track, compatible, ae, es, target);
    } else {
      PrecaptureAfter(track, compatible, ae, es, k - 1, target);
      PrecaptureNext(track, compatible, ae, es, k, target);
    }
  }

  lemma BoundAt11()
    ensures Bound(11, 10_000_000.0) < 1_000_000.0 && Bound(11, 30_000_000.0) < 3_000_000.0
  {
  }

  /** Whatever the requests before it were, a precapture sequence ends on the first request with
      auto-exposure on that finds more than ten steps done and the exposure not a tenth or more
      below the target of its own scene; until then every request takes a step. */
  lemma PrecaptureEndsIff(track: Tracker, compatible: bool, ae: Ae, e: Settings)
    requires LeavesAeOn(compatible, e) && ae.state == Precapture
    ensures var ae' := Process(track, compatible, ae, e).0;
            var target := PrecaptureTarget(e);
            var ends := ae.counter > 10 && 10 * (target - ae.current) < target;
            && ae'.target == target
            && (ends ==>
                  && (ae'.state == if e.locked then Locked else Converged)
                  && ae'.current == ae.current && ae'.counter == 0)
            && (!ends ==>
                  && ae'.state == Precapture
                  && ae'.current == track(ae.current, target) && ae'.counter == ae.counter + 1)
  {
  }

  lemma PrecaptureEnds(track: Tracker, compatible: bool, ae: Ae, e: Settings)
    requires LeavesAeOn(compatible, e) && PrecaptureWithin(ae, PrecaptureTarget(e), 11)
    ensures var ae' := Process(track, compatible, ae, e).0;
            && (ae'.state == if e.locked then Locked else Converged)
            && ae'.target == PrecaptureTarget(e) && ae'.current == ae.current
            && ae'.target - ae'.current < ae'.target / 10
  {
    BoundAt11();
  }

  /** A precapture sequence with fixed face priority reports PRECAPTURE for exactly 11
      requests and ends on the 12th, as LOCKED or CONVERGED. */
  lemma PrecaptureTakesTwelve(track: Tracker, compatible: bool, ae: Ae, es: seq<Settings>)
    requires Tracks(track) && Healthy(ae) && ae.state != Precapture
    requires |es| == 12 && es[0].trigger && SameFacePriority(es)
    requires forall i :: 0 <= i < |es| ==> LeavesAeOn(compatible, es[i])
    ensures forall k :: 1 <= k <= 11 ==> After(track, compatible, ae, es, k).state == Precapture
    ensures var end := After(track, compatible, ae, es, 12);
            && (end.state == if es[11].locked then Locked else Converged)
            && (end.target == if es[0].control.UseScene? then FACE_PRIORITY else NORMAL)
            && end.target - end.current < end.target / 10
  {
    var target := PrecaptureTarget(es[0]);
    forall i | 0 <= i < |es|
      ensures AimsAt(compatible, es[i], target)
    {
    }
    forall k | 1 <= k <= 11
      ensures After(track, compatible, ae, es, k).state == Precapture
    {
      PrecaptureAfter(track, compatible, ae, es, k, target);
    }
    PrecaptureAfter(track, compatible, ae, es, 11, target);
    PrecaptureEnds(track, compatible, After(track, compatible, ae, es, 11), es[11]);
  }
}
