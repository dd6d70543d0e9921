/**
 The HAL2 3A control loop: fake autofocus and auto-exposure scans, each with a randomly drawn
 duration that the loop counts down by the time it sleeps. Requests and triggers come from
 other threads at any point between the loop's critical sections.
 */
module Hal2Control {

  // A random number as rand() / RAND_MAX gives it.
  type Unit = u: real | 0.0 <= u <= 1.0

  const MSEC := 1000000
  const kControlCycleDelay := 100 * MSEC
  const kMinAfDuration := 500 * MSEC
  const kMaxAfDuration := 900 * MSEC
  const kAfSuccessRate: real := 0.9
  const kContinuousAfStartRate: real := kControlCycleDelay as real / 5.0 * 1000000000.0
  const kMinAeDuration := 500 * MSEC
  const kMaxAeDuration := 2000 * MSEC
  const kMinPrecaptureAeDuration := 100 * MSEC
  const kMaxPrecaptureAeDuration := 400 * MSEC
  const kAeScanStartRate: real := kControlCycleDelay as real / 3000000000.0
  const kNormalExposureTime := 10 * MSEC
  const kExposureJump := 2 * MSEC
  const kMinExposureTime := 1 * MSEC

  // The conversion of a floating point number to an integer: towards zero.
  function Truncate(x: real): (r: int)
    ensures x >= 0.0 ==> r as real <= x < (r + 1) as real
  {
    if x >= 0.0 then x.Floor else -((-x).Floor)
  }

  function Scale(u: Unit, width: real): (r: real)
    requires width >= 0.0
    ensures 0.0 <= r <= width
  {
    u * width
  }

  lemma TruncateWithin(x: real, low: nat, high: nat)
    requires low as real <= x <= high as real
    ensures low <= Truncate(x) <= high
  {
  }

  lemma DrawWithin(scaled: real, min: nat, max: nat)
    requires min <= max && 0.0 <= scaled <= (max - min) as real
    ensures min <= Truncate(scaled + min as real) <= max
  {
    TruncateWithin(scaled + min as real, min, max);
  }

  // A duration between two bounds.
  function Draw(u: Unit, min: nat, max: nat): (r: int)
    requires min <= max
    ensures min <= r <= max
  {
    DrawWithin(Scale(u, (max - min) as real), min, max);
    Truncate(Scale(u, (max - min) as real) + min as real)
  }

  // ----- Autofocus -----

  datatype AfMode = AfOff | AfAuto | AfMacro | AfVideo | AfPicture | AfEdof | AfUnknown

  datatype AfState = AfInactive | PassiveScan | PassiveFocused | ActiveScan | FocusedLocked | NotFocusedLocked

  // drawn and slept record the duration drawn for the latest scan and the sleep since.
  datatype Af = Af(state: AfState, duration: int, lockAfterPassiveScan: bool, drawn: int, slept: int)

  predicate AfScanning(a: Af) {
    a.state.ActiveScan? || a.state.PassiveScan?
  }

  function StartAf(a: Af, scan: AfState, u: Unit): Af {
    var d := Draw(u, kMinAfDuration, kMaxAfDuration);
    a.(state := scan, duration := d, drawn := d, slept := 0)
  }

  function ResetAf(a: Af): Af {
    a.(state := AfInactive, duration := 0, lockAfterPassiveScan := false)
  }

  function ProcessAfTrigger(mode: AfMode, a: Af, u: Unit): Af {
    match mode
    case AfOff => a
    case AfEdof => a
    case AfUnknown => a
    case AfPicture =>
      (match a.state
       case PassiveScan => a.(lockAfterPassiveScan := true)
       case AfInactive => a.(state := NotFocusedLocked)
       case PassiveFocused => a.(state := FocusedLocked)
       case _ => a)
    case AfVideo =>
      (match a.state
       case PassiveScan => a.(state := NotFocusedLocked)
       case AfInactive => a.(state := NotFocusedLocked)
       case PassiveFocused => a.(state := FocusedLocked)
       case _ => a)
    case _ =>
      (match a.state
       case AfInactive => StartAf(a, ActiveScan, u)
       case FocusedLocked => StartAf(a, ActiveScan, u)
       case NotFocusedLocked => StartAf(a, ActiveScan, u)
       case _ => a)
  }

  function MaybeStartAfScan(mode: AfMode, a: Af, start: Unit, u: Unit): Af {
    if (mode.AfVideo? || mode.AfPicture?) && (a.state.AfInactive? || a.state.PassiveFocused?)
        && start < kContinuousAfStartRate
    then StartAf(a, PassiveScan, u)
    else a
  }

  function EndAfScan(mode: AfMode, a: Af, success: Unit): Af {
    match mode
    case AfMacro => a.(state := if success < kAfSuccessRate then FocusedLocked else NotFocusedLocked)
    case AfAuto => a.(state := if success < kAfSuccessRate then FocusedLocked else NotFocusedLocked)
    case AfPicture =>
      if a.lockAfterPassiveScan then a.(state := FocusedLocked, lockAfterPassiveScan := false)
      else a.(state := PassiveFocused)
    case AfVideo => a.(state := PassiveFocused)
    case _ => a
  }

  function UpdateAfScan(mode: AfMode, a: Af, success: Unit): Af {
    if AfScanning(a) && a.duration <= 0 then EndAfScan(mode, a, success) else a
  }

  // What is left of an active scan caps the sleep.
  function AfSleep(a: Af, sleep: int): int {
    if AfScanning(a) && 0 < a.duration <= sleep then a.duration else sleep
  }

  /** The comment beside the rate speaks of one scan every five seconds; the expression gives a
      number far above one, so continuous modes start a scan at every opportunity. */
  lemma ContinuousScanAlwaysStarts(mode: AfMode, a: Af, start: Unit, u: Unit)
    requires (mode.AfVideo? || mode.AfPicture?) && (a.state.AfInactive? || a.state.PassiveFocused?)
    ensures MaybeStartAfScan(mode, a, start, u).state == PassiveScan
  {
  }

  // ----- Auto-exposure -----

  // AeOn stands for the four ON modes.
  datatype AeMode = AeOff | AeOn | AeUnknown

  datatype AeState = AeInactive | Searching | Converged | AeLocked | Precapture

  datatype Ae = Ae(state: AeState, duration: int, drawn: int, slept: int)

  predicate AeScanning(e: Ae) {
    e.state.Searching? || e.state.Precapture?
  }

  function StartAe(e: Ae, scan: AeState, d: int): Ae {
    e.(state := scan, duration := d, drawn := d, slept := 0)
  }

  function ProcessPrecaptureTrigger(mode: AeMode, e: Ae, u: Unit): Ae {
    if mode.AeOn? then StartAe(e, Precapture, Draw(u, kMinPrecaptureAeDuration, kMaxPrecaptureAeDuration)) else e
  }

  function MaybeStartAeScan(mode: AeMode, lock: bool, e: Ae, start: Unit, u: Unit): Ae {
    if !lock && mode.AeOn? && (e.state.AeInactive? || e.state.Converged?) && start < kAeScanStartRate
    then StartAe(e, Searching, Draw(u, kMinAeDuration, kMaxAeDuration))
    else e
  }

  function UpdateAeScan(lock: bool, e: Ae): Ae {
    if lock && !e.state.Precapture? then e.(duration := 0, state := AeLocked)
    else if AeScanning(e) && e.duration <= 0 then e.(state := if lock then AeLocked else Converged)
    else e
  }

  function AeSleep(e: Ae, sleep: int): int {
    if AeScanning(e) && 0 < e.duration <= sleep then e.duration else sleep
  }

  function NextExposure(before: Ae, lock: bool, exposure: int, jump: Unit): int {
    if (lock && !before.state.Precapture?) || !AeScanning(before) then exposure
    else if before.duration <= 0 then kNormalExposureTime
    else
      var next := exposure + Truncate(jump * 2.0 * kExposureJump as real - kExposureJump as real);
      if next < kMinExposureTime then kMinExposureTime else next
  }

  // ----- The loop and its environment -----

  // What the loop copies under the mutex at its top.
  datatype Snapshot = Snapshot(
    afTriggered: bool, afCancelled: bool, afModeChange: bool, afMode: AfMode,
    precaptureTriggered: bool, aeMode: AeMode, aeLock: bool, aeState: AeState)

  datatype Phase = Top | Snapped(snap: Snapshot) | AfDone(snap: Snapshot, sleep: int) | Sleeping(sleep: int)

  // ae.state is the shared mAeState; nobody but the loop writes the rest of af and ae.
  datatype State = State(
    startAf: bool, cancelAf: bool, startPrecapture: bool, afMode: AfMode, afModeChange: bool, aeMode: AeMode,
    aeLock: bool, exposureTime: int, af: Af, ae: Ae, phase: Phase)

  datatype Draws = Draws(trigger: Unit, start: Unit, scan: Unit, success: Unit,
                         precapture: Unit, aeStart: Unit, aeScan: Unit, jump: Unit)

  datatype Request = ControlOff | Request(afMode: AfMode, aeMode: AeMode, aeLock: bool)

  datatype Action =
    | ProcessRequest(request: Request)
    | TriggerAutofocus
    | TriggerCancel
    | TriggerPrecapture
    | TakeSnapshot
    | FocusPart(draws: Draws)
    | ExposurePart(draws: Draws)
    | Wake

  // The fields readyToRun leaves alone (durations, AE lock, the passive scan flag) are arbitrary.
  predicate Initial(s: State) {
    && !s.startAf && !s.cancelAf && !s.startPrecapture && s.afMode == AfAuto && !s.afModeChange && s.aeMode == AeOn
    && s.exposureTime == kNormalExposureTime && s.af.state == AfInactive && s.ae.state == AeInactive && s.phase == Top
  }

  predicate Enabled(s: State, a: Action) {
    match a
    case TakeSnapshot => s.phase.Top?
    case FocusPart(_) => s.phase.Snapped?
    case ExposurePart(_) => s.phase.AfDone?
    case Wake => s.phase.Sleeping?
    case _ => true
  }

  function ApplyRequest(s: State, r: Request): State {
    match r
    case ControlOff =>
      s.(afMode := AfOff, aeLock := true, aeMode := AeOff, afModeChange := true, startAf := false, cancelAf := true,
         ae := s.ae.(state := AeInactive))
    case Request(afMode, aeMode, aeLock) =>
      var t := if s.afMode == afMode then s
               else s.(afMode := afMode, afModeChange := true, startAf := false, cancelAf := false);
      t.(aeMode := aeMode, ae := if s.aeLock && !aeLock then t.ae.(state := AeInactive) else t.ae, aeLock := aeLock)
  }

  function Snap(s: State): Snapshot {
    Snapshot(s.startAf, !s.startAf && s.cancelAf, s.afModeChange, s.afMode, s.startPrecapture, s.aeMode, s.aeLock,
        s.ae.state)
  }

  function Focused(snap: Snapshot, a: Af, d: Draws): Af {
    var a1 := if snap.afCancelled || snap.afModeChange then ResetAf(a) else a;
    var a2 := if snap.afTriggered then ProcessAfTrigger(snap.afMode, a1, d.trigger) else a1;
    UpdateAfScan(snap.afMode, MaybeStartAfScan(snap.afMode, a2, d.start, d.scan), d.success)
  }

  // The loop works on its copy of the AE state.
  function ExposureStarted(snap: Snapshot, e: Ae, d: Draws): Ae {
    var e1 := e.(state := snap.aeState);
    var e2 := if snap.precaptureTriggered then ProcessPrecaptureTrigger(snap.aeMode, e1, d.precapture) else e1;
    MaybeStartAeScan(snap.aeMode, snap.aeLock, e2, d.aeStart, d.aeScan)
  }

  function Exposed(snap: Snapshot, e: Ae, d: Draws): Ae {
    UpdateAeScan(snap.aeLock, ExposureStarted(snap, e, d))
  }

  // duration is only counted down while positive.
  function CountDown(duration: int, sleep: int): int {
    if duration > 0 then duration - sleep else duration
  }

  function Apply(s: State, a: Action): State
    requires Enabled(s, a)
  {
    match a
    case ProcessRequest(r) => ApplyRequest(s, r)
    case TriggerAutofocus => s.(startAf := true, cancelAf := false)
    case TriggerCancel => s.(startAf := false, cancelAf := true)
    case TriggerPrecapture => s.(startPrecapture := true)
    case TakeSnapshot =>
      s.(startAf := false, cancelAf := s.startAf && s.cancelAf, afModeChange := false, startPrecapture := false,
         phase := Snapped(Snap(s)))
    case FocusPart(d) =>
      var af := Focused(s.phase.snap, s.af, d);
      s.(af := af, phase := AfDone(s.phase.snap, AfSleep(af, kControlCycleDelay)))
    case ExposurePart(d) =>
      var started := ExposureStarted(s.phase.snap, s.ae, d);
      var ae := Exposed(s.phase.snap, s.ae, d);
      s.(ae := ae, exposureTime := NextExposure(started, s.phase.snap.aeLock, s.exposureTime, d.jump),
         phase := Sleeping(AeSleep(ae, s.phase.sleep)))
    case Wake =>
      var n := s.phase.sleep;
      s.(af := s.af.(duration := CountDown(s.af.duration, n), slept := s.af.slept + n),
         ae := s.ae.(duration := CountDown(s.ae.duration, n), slept := s.ae.slept + n),
         phase := Top)
  }

  // ----- Runs -----

  ghost predicate Runs(s: State, actions: seq<Action>)
    decreases |actions|
  {
    actions == [] || (Enabled(s, actions[0]) && Runs(Apply(s, actions[0]), actions[1..]))
  }

  ghost function After(s: State, actions: seq<Action>): State
    requires Runs(s, actions)
    decreases |actions|
  {
    if actions == [] then s else After(Apply(s, actions[0]), actions[1..])
  }

  ghost predicate Reachable(s: State) {
    exists start: State, actions: seq<Action> :: Initial(start) && Runs(start, actions) && After(start, actions) == s
  }

  lemma {:induction false} RunMore(s: State, actions: seq<Action>, a: Action)
    requires Runs(s, actions) && Enabled(After(s, actions), a)
    ensures Runs(s, actions + [a]) && After(s, actions + [a]) == Apply(After(s, actions), a)
    decreases |actions|
  {
    if actions == [] {
      assert actions + [a] == [a];
      assert Runs(Apply(s, a), []);
    } else {
      assert (actions + [a])[0] == actions[0] && (actions + [a])[1..] == actions[1..] + [a];
      RunMore(Apply(s, actions[0]), actions[1..], a);
    }
  }

  lemma ReachableStep(s: State, a: Action)
    requires Reachable(s) && Enabled(s, a)
    ensures Reachable(Apply(s, a))
  {
    var start: State, actions: seq<Action> :| Initial(start) && Runs(start, actions) && After(start, actions) == s;
    RunMore(start, actions, a);
  }

  lemma ReachableStart(s: State)
    requires Initial(s)
    ensures Reachable(s)
  {
    assert Runs(s, []) && After(s, []) == s;
  }

  // ----- The invariant -----

  predicate Compatible(mode: AfMode, state: AfState) {
    match mode
    case AfAuto => !state.PassiveScan? && !state.PassiveFocused?
    case AfMacro => !state.PassiveScan? && !state.PassiveFocused?
    case AfVideo => !state.ActiveScan?
    case AfPicture => !state.ActiveScan?
    case _ => state.AfInactive?
  }

  // The focus state fits the mode it was computed for; a mode set since is flagged.
  predicate ModeInv(s: State) {
    match s.phase
    case Snapped(snap) =>
      (snap.afModeChange || Compatible(snap.afMode, s.af.state)) && (s.afModeChange || s.afMode == snap.afMode)
    case AfDone(snap, _) =>
      Compatible(snap.afMode, s.af.state) && (s.afModeChange || s.afMode == snap.afMode)
    case _ => s.afModeChange || Compatible(s.afMode, s.af.state)
  }

  // While a scan lasts, its duration field is what is left of the time drawn for it.
  predicate AfTimed(a: Af) {
    AfScanning(a) ==> kMinAfDuration <= a.drawn <= kMaxAfDuration && a.duration == a.drawn - a.slept >= 0
  }

  predicate AeTimed(e: Ae) {
    && (e.state.Searching? ==> kMinAeDuration <= e.drawn <= kMaxAeDuration)
    && (e.state.Precapture? ==> kMinPrecaptureAeDuration <= e.drawn <= kMaxPrecaptureAeDuration)
    && (AeScanning(e) ==> e.duration == e.drawn - e.slept >= 0)
  }

  // AE as the loop sees it: with its own copy of the state while it has one.
  function LoopAe(s: State): Ae {
    match s.phase
    case Snapped(snap) => s.ae.(state := snap.aeState)
    case AfDone(snap, _) => s.ae.(state := snap.aeState)
    case _ => s.ae
  }

  predicate SleepInv(s: State) {
    match s.phase
    case AfDone(_, sleep) => 0 < sleep <= kControlCycleDelay && (AfScanning(s.af) ==> sleep <= s.af.duration)
    case Sleeping(sleep) =>
      && 0 < sleep <= kControlCycleDelay && (AfScanning(s.af) ==> sleep <= s.af.duration)
      && (AeScanning(s.ae) ==> sleep <= s.ae.duration)
    case _ => true
  }

  predicate Inv(s: State) {
    ModeInv(s) && AfTimed(s.af) && AeTimed(LoopAe(s)) && SleepInv(s) && s.exposureTime >= kMinExposureTime
  }

  // What the focus part makes of an autofocus that fits its mode.
  lemma FocusFits(snap: Snapshot, a: Af, d: Draws)
    requires AfTimed(a) && (snap.afModeChange || Compatible(snap.afMode, a.state))
    ensures var b := Focused(snap, a, d);
            && AfTimed(b) && Compatible(snap.afMode, b.state) && (AfScanning(b) ==> b.duration > 0)
  {
  }

  lemma TriggerFits(mode: AfMode, a: Af, u: Unit)
    requires AfTimed(a) && Compatible(mode, a.state)
    ensures AfTimed(ProcessAfTrigger(mode, a, u)) && Compatible(mode, ProcessAfTrigger(mode, a, u).state)
  {
  }

  lemma FocusKeeps(s: State, d: Draws)
    requires Inv(s) && Enabled(s, FocusPart(d))
    ensures Inv(Apply(s, FocusPart(d)))
  {
    FocusFits(s.phase.snap, s.af, d);
  }

  lemma ExposureKeeps(s: State, d: Draws)
    requires Inv(s) && Enabled(s, ExposurePart(d))
    ensures Inv(Apply(s, ExposurePart(d)))
  {
  }

  lemma RequestKeeps(s: State, r: Request)
    requires Inv(s)
    ensures Inv(Apply(s, ProcessRequest(r)))
  {
  }

  lemma WakeKeeps(s: State)
    requires Inv(s) && Enabled(s, Wake)
    ensures Inv(Apply(s, Wake))
  {
  }

  lemma InputKeeps(s: State, a: Action)
    requires Inv(s) && Enabled(s, a)
    requires a.TriggerAutofocus? || a.TriggerCancel? || a.TriggerPrecapture? || a.TakeSnapshot?
    ensures Inv(Apply(s, a))
  {
  }

  lemma StepKeeps(s: State, a: Action)
    requires Inv(s) && Enabled(s, a)
    ensures Inv(Apply(s, a))
  {
    match a
    case FocusPart(d) => FocusKeeps(s, d);
    case ExposurePart(d) => ExposureKeeps(s, d);
    case ProcessRequest(r) => RequestKeeps(s, r);
    case Wake => WakeKeeps(s);
    case _ => InputKeeps(s, a);
  }

  lemma {:induction false} RunKeeps(s: State, actions: seq<Action>)
    requires Inv(s) && Runs(s, actions)
    ensures Inv(After(s, actions))
    decreases |actions|
  {
    if actions != [] {
      StepKeeps(s, actions[0]);
      RunKeeps(Apply(s, actions[0]), actions[1..]);
    }
  }

  lemma ReachableInv(s: State)
    requires Reachable(s)
    ensures Inv(s)
  {
    var start: State, actions: seq<Action> :| Initial(start) && Runs(start, actions) && After(start, actions) == s;
    RunKeeps(start, actions);
  }

  // ----- Sleeps and scans -----

  /** Every sleep is positive, at most one control cycle, and no longer than what is left of
      either scan; so neither scan is ever overslept. */
  lemma SleepsFit(s: State)
    requires Reachable(s) && s.phase.Sleeping?
    ensures 0 < s.phase.sleep <= kControlCycleDelay
    ensures AfScanning(s.af) ==> s.phase.sleep <= s.af.drawn - s.af.slept
    ensures AeScanning(s.ae) ==> s.phase.sleep <= s.ae.drawn - s.ae.slept
  {
    ReachableInv(s);
  }

  /** How long scans take, in nanoseconds: a focus scan 0.5 to 0.9 seconds, an exposure search
      0.5 to 2 seconds, precapture 0.1 to 0.4 seconds. */
  lemma ScanLengths(s: State)
    requires Reachable(s)
    ensures AfScanning(s.af) ==> 500_000_000 <= s.af.drawn <= 900_000_000
    ensures LoopAe(s).state.Searching? ==> 500_000_000 <= s.ae.drawn <= 2_000_000_000
    ensures LoopAe(s).state.Precapture? ==> 100_000_000 <= s.ae.drawn <= 400_000_000
  {
    ReachableInv(s);
  }

  /** A focus scan that is not cancelled, reset by a mode change or cut short by a trigger in
      video mode ends in the round that finds all of its drawn time slept, and in no other. */
  lemma FocusScanEndsOnTime(s: State, d: Draws)
    requires Reachable(s) && Enabled(s, FocusPart(d)) && AfScanning(s.af) && FocusUndisturbed(s.phase.snap)
    ensures var t := Apply(s, FocusPart(d));
            && (!AfScanning(t.af) <==> s.af.slept == s.af.drawn)
            && t.af.drawn == s.af.drawn && t.af.slept == s.af.slept
  {
    ReachableInv(s);
  }

  predicate FocusUndisturbed(snap: Snapshot) {
    !snap.afCancelled && !snap.afModeChange && !(snap.afTriggered && snap.afMode.AfVideo?)
  }

  /** The same for exposure: a precapture scan runs its drawn time whether locked or not, a
      search as long as it is not locked. */
  lemma ExposureScanEndsOnTime(s: State, d: Draws)
    requires Reachable(s) && Enabled(s, ExposurePart(d)) && AeScanning(LoopAe(s)) && ExposureUndisturbed(s.phase.snap)
    ensures var t := Apply(s, ExposurePart(d));
            && (!AeScanning(t.ae) <==> s.ae.slept == s.ae.drawn)
            && (!AeScanning(t.ae) ==> t.ae.state == if s.phase.snap.aeLock then AeLocked else Converged)
            && t.ae.drawn == s.ae.drawn && t.ae.slept == s.ae.slept
  {
    ReachableInv(s);
  }

  predicate ExposureUndisturbed(snap: Snapshot) {
    !snap.precaptureTriggered && (snap.aeLock ==> snap.aeState.Precapture?)
  }

  // The time slept along a run.
  ghost function Elapsed(s: State, actions: seq<Action>): int
    requires Runs(s, actions)
    decreases |actions|
  {
    if actions == [] then 0
    else (if actions[0].Wake? then s.phase.sleep else 0) + Elapsed(Apply(s, actions[0]), actions[1..])
  }

  // One and the same focus scan goes on all along a run.
  ghost predicate FocusScanGoesOn(s: State, actions: seq<Action>)
    requires Runs(s, actions)
    decreases |actions|
  {
    actions == [] ||
    (&& (actions[0].FocusPart? ==> FocusUndisturbed(s.phase.snap))
     && AfScanning(Apply(s, actions[0]).af) && FocusScanGoesOn(Apply(s, actions[0]), actions[1..]))
  }

  lemma FocusScanStep(s: State, a: Action)
    requires Inv(s) && Enabled(s, a) && AfScanning(s.af) && (a.FocusPart? ==> FocusUndisturbed(s.phase.snap))
    ensures var t := Apply(s, a);
            t.af.drawn == s.af.drawn && t.af.duration == s.af.duration - (if a.Wake? then s.phase.sleep else 0)
  {
  }

  /** Along any run during which a focus scan goes on, the time left shrinks by exactly the
      time slept, and never below zero. */
  lemma {:induction false} FocusScanCountsSleep(s: State, actions: seq<Action>)
    requires Inv(s) && AfScanning(s.af) && Runs(s, actions) && FocusScanGoesOn(s, actions)
    ensures var t := After(s, actions);
            AfScanning(t.af) && t.af.drawn == s.af.drawn && 0 <= t.af.duration == s.af.duration - Elapsed(s, actions)
    decreases |actions|
  {
    if actions != [] {
      StepKeeps(s, actions[0]);
      FocusScanStep(s, actions[0]);
      FocusScanCountsSleep(Apply(s, actions[0]), actions[1..]);
    }
  }

  ghost predicate ExposureScanGoesOn(s: State, actions: seq<Action>)
    requires Runs(s, actions)
    decreases |actions|
  {
    actions == [] ||
    (&& (actions[0].ExposurePart? ==> ExposureUndisturbed(s.phase.snap))
     && AeScanning(LoopAe(Apply(s, actions[0]))) && ExposureScanGoesOn(Apply(s, actions[0]), actions[1..]))
  }

  lemma ExposureScanStep(s: State, a: Action)
    requires Inv(s) && Enabled(s, a) && AeScanning(LoopAe(s)) && (a.ExposurePart? ==> ExposureUndisturbed(s.phase.snap))
    ensures var t := Apply(s, a);
            t.ae.drawn == s.ae.drawn && t.ae.duration == s.ae.duration - (if a.Wake? then s.phase.sleep else 0)
  {
  }

  /** And the same for an exposure scan. */
  lemma {:induction false} ExposureScanCountsSleep(s: State, actions: seq<Action>)
    requires Inv(s) && AeScanning(LoopAe(s)) && Runs(s, actions) && ExposureScanGoesOn(s, actions)
    ensures var t := After(s, actions);
            AeScanning(LoopAe(t)) && t.ae.drawn == s.ae.drawn
                && 0 <= t.ae.duration == s.ae.duration - Elapsed(s, actions)
    decreases |actions|
  {
    if actions != [] {
      StepKeeps(s, actions[0]);
      ExposureScanStep(s, actions[0]);
      ExposureScanCountsSleep(Apply(s, actions[0]), actions[1..]);
    }
  }

  // ----- What scans and triggers lead to -----

  /** How a focus scan ends: in the single-shot modes in focus nine times in ten, by the draw; in
      picture mode locked exactly if a trigger came during the scan; in video mode never. */
  lemma FocusScanOutcome(mode: AfMode, a: Af, success: Unit)
    requires AfScanning(a) && a.duration <= 0
    ensures var b := UpdateAfScan(mode, a, success);
            && (mode == AfAuto || mode == AfMacro ==>
                  b.state == if success < 0.9 then FocusedLocked else NotFocusedLocked)
            && (mode == AfPicture ==>
                  && (b.state == if a.lockAfterPassiveScan then FocusedLocked else PassiveFocused)
                  && !b.lockAfterPassiveScan)
            && (mode == AfVideo ==> b.state == PassiveFocused && b.lockAfterPassiveScan == a.lockAfterPassiveScan)
            && b.duration == a.duration
  {
  }

  // The focus is locked, in focus or not.
  predicate FocusLocked(state: AfState) {
    state == FocusedLocked || state == NotFocusedLocked
  }

  predicate Continuous(mode: AfMode) {
    mode == AfVideo || mode == AfPicture
  }

  /** What a trigger does. In the single-shot modes it starts a scan unless one is running. In the
      continuous modes it locks what there is: in focus after a passive scan that succeeded, out
      of focus before one; during a scan video mode locks out of focus at once, and picture mode
      waits for the scan. A lock is kept, and the other modes ignore triggers. */
  lemma FocusTriggerOutcome(mode: AfMode, a: Af, u: Unit)
    requires Compatible(mode, a.state)
    ensures var b := ProcessAfTrigger(mode, a, u);
            && (mode == AfAuto || mode == AfMacro ==>
                  && b.state == ActiveScan
                  && if a.state == ActiveScan then b == a else 0 < b.duration == b.drawn && b.slept == 0)
            && (Continuous(mode) && a.state == PassiveFocused ==> b == a.(state := FocusedLocked))
            && (Continuous(mode) && a.state == AfInactive ==> b == a.(state := NotFocusedLocked))
            && (mode == AfVideo && a.state == PassiveScan ==> b == a.(state := NotFocusedLocked))
            && (mode == AfPicture && a.state == PassiveScan ==> b == a.(lockAfterPassiveScan := true))
            && (Continuous(mode) && FocusLocked(a.state) ==> b == a)
            && (mode == AfOff || mode == AfEdof || mode == AfUnknown ==> b == a)
  {
  }

  /** A trigger that the loop has copied is acted on in the same round: a single-shot mode is
      scanning after it, and a continuous mode is locked, or will be when its scan ends. */
  lemma TriggerIsActedOn(snap: Snapshot, a: Af, d: Draws)
    requires AfTimed(a) && Compatible(snap.afMode, a.state)
    requires snap.afTriggered && !snap.afCancelled && !snap.afModeChange
    ensures var b := Focused(snap, a, d);
            && ((snap.afMode == AfAuto || snap.afMode == AfMacro) && a.state != ActiveScan ==>
                  b.state == ActiveScan && b.slept == 0)
            && (Continuous(snap.afMode) && a.state == PassiveFocused ==> b.state == FocusedLocked)
            && (Continuous(snap.afMode) && a.state == AfInactive ==> b.state == NotFocusedLocked)
            && (snap.afMode == AfVideo && a.state == PassiveScan ==> b.state == NotFocusedLocked)
            && (snap.afMode == AfPicture && a.state == PassiveScan && a.duration > 0 ==>
                  b.state == PassiveScan && b.lockAfterPassiveScan)
            && (snap.afMode == AfPicture && a.state == PassiveScan && a.duration <= 0 ==> b.state == FocusedLocked)
  {
  }

  // No cancel is pending or coming, and the mode stays.
  predicate LeavesFocusAlone(s: State, a: Action) {
    && a != TriggerCancel
    && (a.ProcessRequest? ==> a.request.Request? && a.request.afMode == s.afMode)
  }

  ghost predicate AllLeaveFocusAlone(s: State, actions: seq<Action>)
    requires Runs(s, actions)
    decreases |actions|
  {
    actions == [] || (LeavesFocusAlone(s, actions[0]) && AllLeaveFocusAlone(Apply(s, actions[0]), actions[1..]))
  }

  predicate HeldFocus(s: State, state: AfState) {
    && s.af.state == state && FocusLocked(state) && Continuous(s.afMode) && !s.cancelAf && !s.afModeChange
    && match s.phase
       case Snapped(snap) => snap.afMode == s.afMode && !snap.afCancelled && !snap.afModeChange
       case _ => true
  }

  lemma HeldFocusStep(s: State, a: Action, state: AfState)
    requires HeldFocus(s, state) && Enabled(s, a) && LeavesFocusAlone(s, a)
    ensures HeldFocus(Apply(s, a), state)
  {
  }

  /** In the continuous modes a focus lock is held, through any triggers and requests in the same
      mode, until it is cancelled or the mode changes. */
  lemma {:induction false} FocusLockIsHeld(s: State, actions: seq<Action>, state: AfState)
    requires HeldFocus(s, state) && Runs(s, actions) && AllLeaveFocusAlone(s, actions)
    ensures After(s, actions).af.state == state
    decreases |actions|
  {
    if actions != [] {
      HeldFocusStep(s, actions[0], state);
      FocusLockIsHeld(Apply(s, actions[0]), actions[1..], state);
    }
  }

  /** A cancel or a mode change leaves no scan behind unless the same round starts a new one. */
  lemma FocusResetOutcome(snap: Snapshot, a: Af, d: Draws)
    requires (snap.afCancelled || snap.afModeChange) && !snap.afTriggered
    ensures var b := Focused(snap, a, d);
            if Continuous(snap.afMode) then b.state == PassiveScan && b.slept == 0 && !b.lockAfterPassiveScan
            else b == a.(state := AfInactive, duration := 0, lockAfterPassiveScan := false)
  {
  }

  /** When an exposure scan starts: precapture by its trigger under an ON mode, locked or not; a
      search by a draw below one in thirty under an unlocked ON mode at rest; and a lock ends a
      search at once but not a precapture. */
  lemma ExposureStartOutcome(snap: Snapshot, e: Ae, d: Draws)
    ensures var b := ExposureStarted(snap, e, d);
            var precapture := snap.precaptureTriggered && snap.aeMode == AeOn;
            var rest := snap.aeState == AeInactive || snap.aeState == Converged;
            && (precapture ==> b.state == Precapture && 0 < b.duration == b.drawn && b.slept == 0)
            && (!precapture && !snap.aeLock && snap.aeMode == AeOn && rest && d.aeStart < 1.0 / 30.0 ==>
                  b.state == Searching && 0 < b.duration == b.drawn && b.slept == 0)
            && (!precapture && !(!snap.aeLock && snap.aeMode == AeOn && rest && d.aeStart < 1.0 / 30.0) ==>
                  b == e.(state := snap.aeState))
            && (snap.aeLock && b.state != Precapture ==> Exposed(snap, e, d).state == AeLocked)
  {
  }

  /** The exposure time moves by at most 2 milliseconds a round while a scan lasts, never below
      one, is 10 milliseconds when a scan ends, and otherwise stays. */
  lemma ExposureTimeOutcome(e: Ae, lock: bool, exposure: int, jump: Unit)
    requires exposure >= 1_000_000
    ensures var next := NextExposure(e, lock, exposure, jump);
            var active := AeScanning(e) && !(lock && e.state == Searching);
            && (!active ==> next == exposure)
            && (active && e.duration <= 0 ==> next == 10_000_000)
            && (active && e.duration > 0 ==>
                  next >= 1_000_000 && exposure - 2_000_000 <= next <= exposure + 2_000_000)
            && (active && e.duration > 0 && jump == 1.0 ==> next == exposure + 2_000_000)
            && (active && e.duration > 0 && jump == 0.5 ==> next == exposure)
  {
    JumpWithin(jump);
  }

  lemma JumpWithin(jump: Unit)
    ensures -2_000_000 <= Truncate(jump * 2.0 * kExposureJump as real - kExposureJump as real) <= 2_000_000
    ensures jump == 1.0 ==> Truncate(jump * 2.0 * kExposureJump as real - kExposureJump as real) == 2_000_000
    ensures jump == 0.5 ==> Truncate(jump * 2.0 * kExposureJump as real - kExposureJump as real) == 0
  {
  }

  // ----- Branches that are never taken -----

  // The default cases of processAfTrigger.
  predicate UnexpectedTrigger(mode: AfMode, state: AfState) {
    || ((mode.AfAuto? || mode.AfMacro?) && (state.PassiveScan? || state.PassiveFocused?))
    || ((mode.AfVideo? || mode.AfPicture?) && state.ActiveScan?)
  }

  // The default case of updateAfScan.
  predicate UnexpectedScanEnd(mode: AfMode, a: Af) {
    AfScanning(a) && a.duration <= 0 && !(mode.AfMacro? || mode.AfAuto? || mode.AfPicture? || mode.AfVideo?)
  }

  /** However requests and triggers fall between the loop's critical sections, neither of the
      "unexpected" error branches of the focus part is reached. */
  lemma NoUnexpectedFocusState(s: State, d: Draws)
    requires Reachable(s) && Enabled(s, FocusPart(d))
    ensures var snap := s.phase.snap;
            var a1 := if snap.afCancelled || snap.afModeChange then ResetAf(s.af) else s.af;
            var a2 := if snap.afTriggered then ProcessAfTrigger(snap.afMode, a1, d.trigger) else a1;
            && !UnexpectedTrigger(snap.afMode, a1.state)
            && !UnexpectedScanEnd(snap.afMode, MaybeStartAfScan(snap.afMode, a2, d.start, d.scan))
  {
    ReachableInv(s);
    var snap := s.phase.snap;
    var a1 := if snap.afCancelled || snap.afModeChange then ResetAf(s.af) else s.af;
    assert AfTimed(a1) && Compatible(snap.afMode, a1.state);
    TriggerFits(snap.afMode, a1, d.trigger);
  }

  /** The exposure time never falls below its minimum. */
  lemma ExposureTimeHasFloor(s: State)
    requires Reachable(s)
    ensures s.exposureTime >= kMinExposureTime
  {
    ReachableInv(s);
  }

  // ----- The AE lock -----

  // Exposure reports LOCKED although the lock is off.
  predicate Lost(s: State) {
    !s.aeLock && s.ae.state.AeLocked?
  }

  // The loop is about to write back LOCKED from a copy made before the lock was taken off. A
  // precapture sequence that is starting or still running keeps it from doing so.
  predicate StaleLock(s: State) {
    && s.phase.AfDone? && !s.aeLock
    && var snap := s.phase.snap;
       && !(snap.precaptureTriggered && snap.aeMode.AeOn?)
       && if snap.aeLock then !(snap.aeState.Precapture? && s.ae.duration > 0) else snap.aeState.AeLocked?
  }

  // What every step does to it.
  predicate LostAfter(s: State, a: Action) {
    match a
    case ExposurePart(_) => StaleLock(s)
    case ProcessRequest(r) => Lost(s) && r.Request? && !r.aeLock
    case _ => Lost(s)
  }

  /** The exact condition, step by step: an unlock is lost in the one step that writes the
      exposure state back, exactly when the lock copied is stale; it is found again by turning
      the lock on, by switching control off, or by a write-back that is not LOCKED. */
  lemma LostExactly(s: State, a: Action)
    requires Enabled(s, a)
    ensures Lost(Apply(s, a)) <==> LostAfter(s, a)
  {
  }

  // Along a whole run.
  ghost predicate NeverLost(s: State, actions: seq<Action>)
    requires Runs(s, actions)
    decreases |actions|
  {
    !Lost(s) && (actions == [] || NeverLost(Apply(s, actions[0]), actions[1..]))
  }

  ghost predicate NeverStale(s: State, actions: seq<Action>)
    requires Runs(s, actions)
    decreases |actions|
  {
    actions == [] || (!(actions[0].ExposurePart? && StaleLock(s)) && NeverStale(Apply(s, actions[0]), actions[1..]))
  }

  lemma {:induction false} NeverLostIff(s: State, actions: seq<Action>)
    requires !Lost(s) && Runs(s, actions)
    ensures NeverLost(s, actions) <==> NeverStale(s, actions)
    decreases |actions|
  {
    if actions != [] {
      LostExactly(s, actions[0]);
      if !Lost(Apply(s, actions[0])) {
        NeverLostIff(Apply(s, actions[0]), actions[1..]);
      }
    }
  }

  /** On every run from the start: LOCKED is reported only while the lock is on if and only if
      the loop never reaches its write-back with a stale lock. */
  lemma LockedMeansLocked(start: State, actions: seq<Action>)
    requires Initial(start) && Runs(start, actions)
    ensures NeverLost(start, actions) <==> NeverStale(start, actions)
  {
    NeverLostIff(start, actions);
  }

  predicate TakesLockOff(s: State, a: Action) {
    a.ProcessRequest? && a.request.Request? && s.aeLock && !a.request.aeLock
  }

  // No request takes the lock off while the loop holds a copy of the shared state.
  ghost predicate Quiet(s: State, actions: seq<Action>)
    requires Runs(s, actions)
    decreases |actions|
  {
    actions == [] ||
    ((TakesLockOff(s, actions[0]) ==> s.phase.Top? || s.phase.Sleeping?) && Quiet(Apply(s, actions[0]), actions[1..]))
  }

  predicate LockInv(s: State) {
    match s.phase
    case Snapped(snap) => !Lost(s) && (snap.aeLock || snap.aeState.AeLocked? ==> s.aeLock)
    case AfDone(snap, _) => !Lost(s) && (snap.aeLock || snap.aeState.AeLocked? ==> s.aeLock)
    case _ => !Lost(s)
  }

  lemma QuietStep(s: State, a: Action)
    requires LockInv(s) && Enabled(s, a) && (TakesLockOff(s, a) ==> s.phase.Top? || s.phase.Sleeping?)
    ensures LockInv(Apply(s, a)) && !(a.ExposurePart? && StaleLock(s))
  {
  }

  lemma {:induction false} QuietKeeps(s: State, actions: seq<Action>)
    requires LockInv(s) && Runs(s, actions) && Quiet(s, actions)
    ensures NeverStale(s, actions)
    decreases |actions|
  {
    if actions != [] {
      QuietStep(s, actions[0]);
      QuietKeeps(Apply(s, actions[0]), actions[1..]);
    }
  }

  /** What callers can do about it: as long as the lock is only ever taken off while the loop
      sleeps, no unlock is lost. */
  lemma UnlockWhileSleepingIsSafe(start: State, actions: seq<Action>)
    requires Initial(start) && Runs(start, actions) && Quiet(start, actions)
    ensures NeverLost(start, actions)
  {
    QuietKeeps(start, actions);
    LockedMeansLocked(start, actions);
  }

  // Requests go on, but all with the lock off, and nobody asks for precapture.
  predicate KeepsUnlocked(a: Action) {
    && !a.TriggerPrecapture?
    && (a.ProcessRequest? ==> a.request.Request? && !a.request.aeLock)
  }

  ghost predicate AllKeepUnlocked(actions: seq<Action>) {
    forall i :: 0 <= i < |actions| ==> KeepsUnlocked(actions[i])
  }

  // Lost, with no precapture under way and no older copy left in the loop.
  predicate StuckLocked(s: State) {
    && Lost(s) && !s.startPrecapture
    && match s.phase
       case Snapped(snap) => !snap.aeLock && !snap.precaptureTriggered && snap.aeState.AeLocked?
       case AfDone(snap, _) => !snap.aeLock && !snap.precaptureTriggered && snap.aeState.AeLocked?
       case _ => true
  }

  /** A lost unlock stays lost however many requests with the lock off follow: exposure reports
      LOCKED until a request turns the lock on, switches control off, or precapture comes. */
  lemma {:induction false} LostUnlockIsForGood(s: State, actions: seq<Action>)
    requires StuckLocked(s) && Runs(s, actions) && AllKeepUnlocked(actions)
    ensures StuckLocked(After(s, actions))
    decreases |actions|
  {
    if actions != [] {
      assert KeepsUnlocked(actions[0]);
      StuckStep(s, actions[0]);
      LostUnlockIsForGood(Apply(s, actions[0]), actions[1..]);
    }
  }

  lemma StuckStep(s: State, a: Action)
    requires StuckLocked(s) && Enabled(s, a) && KeepsUnlocked(a)
    ensures StuckLocked(Apply(s, a))
  {
  }

  function AnyDraws(): Draws {
    Draws(1.0, 1.0, 1.0, 1.0, 1.0, 1.0, 1.0, 1.0)
  }

  /** And that state is reached when the request that takes the lock off falls between the
      copy of the exposure state and its being written back. */
  lemma UnlockCanBeLost()
    ensures exists s: State :: Reachable(s) && StuckLocked(s)
  {
    var d := AnyDraws();
    var off, on := Request(AfAuto, AeOn, false), Request(AfAuto, AeOn, true);
    var s0 := State(false, false, false, AfAuto, false, AeOn, false, kNormalExposureTime,
                    Af(AfInactive, 0, false, 0, 0), Ae(AeInactive, 0, 0, 0), Top);
    ReachableStart(s0);
    ReachableStep(s0, ProcessRequest(on));
    var s1 := Apply(s0, ProcessRequest(on));
    ReachableStep(s1, TakeSnapshot);
    var s2 := Apply(s1, TakeSnapshot);
    ReachableStep(s2, FocusPart(d));
    var s3 := Apply(s2, FocusPart(d));
    ReachableStep(s3, ProcessRequest(off));
    var s4 := Apply(s3, ProcessRequest(off));
    ReachableStep(s4, ExposurePart(d));
    assert StuckLocked(Apply(s4, ExposurePart(d)));
  }
}
