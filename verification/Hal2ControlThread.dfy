/**
 The control thread as an object. The helpers keep the shape of the original: they work on a
 local copy of the state and update the scan fields in place. The steps of the loop and its
 callers keep the object in a reachable state of the transition system of Hal2Control.
 */
module Hal2ControlThread {
  import opened Hal2Control

  datatype Trigger = Autofocus | CancelAutofocus | PrecaptureMetering | UnknownTrigger

  class ControlThread {
    var startAf: bool
    var cancelAf: bool
    var startPrecapture: bool
    var afMode: AfMode
    var afModeChange: bool
    var aeMode: AeMode
    var aeLock: bool
    var exposureTime: int
    var afState: AfState
    var aeState: AeState
    var afScanDuration: int
    var aeScanDuration: int
    var lockAfterPassiveScan: bool
    var phase: Phase
    ghost var afDrawn: int
    ghost var afSlept: int
    ghost var aeDrawn: int
    ghost var aeSlept: int

    ghost function AfWith(state: AfState): Af
      reads this
    {
      Af(state, afScanDuration, lockAfterPassiveScan, afDrawn, afSlept)
    }

    ghost function AeWith(state: AeState): Ae
      reads this
    {
      Ae(state, aeScanDuration, aeDrawn, aeSlept)
    }

    ghost function View(): State
      reads this
    {
      State(startAf, cancelAf, startPrecapture, afMode, afModeChange, aeMode, aeLock, exposureTime, AfWith(afState),
            AeWith(aeState), phase)
    }

    // Some interleaving of the loop with requests and triggers leads here.
    ghost predicate Valid()
      reads this
    {
      Reachable(View())
    }

    // readyToRun; the parameters are what the fields it does not set happen to hold.
    constructor (aeLock: bool, afDuration: int, aeDuration: int, lockAfter: bool)
      ensures Valid() && Initial(View())
    {
      startAf, cancelAf, startPrecapture := false, false, false;
      afMode, afModeChange, aeMode := AfAuto, false, AeOn;
      afState, aeState, exposureTime := AfInactive, AeInactive, kNormalExposureTime;
      this.aeLock, afScanDuration, aeScanDuration, lockAfterPassiveScan := aeLock, afDuration, aeDuration, lockAfter;
      phase := Top;
      new;
      ReachableStart(View());
    }

    method ReadAfMode(mode: AfMode)
      modifies this`afMode, this`afModeChange, this`startAf, this`cancelAf
      ensures afMode == mode && (afModeChange <==> old(afModeChange) || old(afMode) != mode)
      ensures startAf <==> old(startAf) && old(afMode) == mode
      ensures cancelAf <==> old(cancelAf) && old(afMode) == mode
    {
      if afMode != mode {
        afMode, afModeChange := mode, true;
        startAf, cancelAf := false, false;
      }
    }

    method ReadAeLock(lock: bool)
      modifies this`aeLock, this`aeState
      ensures aeLock == lock && aeState == if old(aeLock) && !lock then AeInactive else old(aeState)
    {
      if aeLock && !lock {
        aeState := AeInactive;
      }
      aeLock := lock;
    }

    method ReadRequest(request: Request)
      modifies this`afMode, this`afModeChange, this`startAf, this`cancelAf, this`aeMode, this`aeLock, this`aeState
      ensures View() == ApplyRequest(old(View()), request)
    {
      match request
      case ControlOff =>
        afMode, aeLock, aeMode, afModeChange := AfOff, true, AeOff, true;
        startAf, cancelAf := false, true;
        aeState := AeInactive;
      case Request(newAfMode, newAeMode, newAeLock) =>
        ReadAfMode(newAfMode);
        aeMode := newAeMode;
        ReadAeLock(newAeLock);
    }

    method ProcessRequest(request: Request)
      requires Valid()
      modifies this`afMode, this`afModeChange, this`startAf, this`cancelAf, this`aeMode, this`aeLock, this`aeState
      ensures Valid() && View() == ApplyRequest(old(View()), request)
      ensures request == ControlOff ==>
                && afMode == AfOff && afModeChange && !startAf && cancelAf
                && aeMode == AeOff && aeLock && aeState == AeInactive
      ensures request.Request? ==>
                && afMode == request.afMode && aeMode == request.aeMode && aeLock == request.aeLock
                && (afModeChange <==> old(afModeChange) || request.afMode != old(afMode))
                && (startAf <==> old(startAf) && request.afMode == old(afMode))
                && (cancelAf <==> old(cancelAf) && request.afMode == old(afMode))
                && aeState == if old(aeLock) && !request.aeLock then AeInactive else old(aeState)
    {
      ReachableStep(View(), Action.ProcessRequest(request));
      ReadRequest(request);
    }

    /** An unknown trigger is refused and changes nothing. */
    method TriggerAction(trigger: Trigger) returns (ok: bool)
      requires Valid()
      modifies this`startAf, this`cancelAf, this`startPrecapture
      ensures Valid()
      ensures ok <==> trigger != UnknownTrigger
      ensures trigger == Autofocus ==> View() == Apply(old(View()), TriggerAutofocus)
      ensures trigger == CancelAutofocus ==> View() == Apply(old(View()), TriggerCancel)
      ensures trigger == PrecaptureMetering ==> View() == Apply(old(View()), TriggerPrecapture)
      ensures trigger == UnknownTrigger ==> View() == old(View())
      ensures trigger == Autofocus ==> startAf && !cancelAf
      ensures trigger == CancelAutofocus ==> !startAf && cancelAf
      ensures startPrecapture <==> old(startPrecapture) || trigger == PrecaptureMetering
      ensures trigger != Autofocus && trigger != CancelAutofocus ==>
                startAf == old(startAf) && cancelAf == old(cancelAf)
    {
      ok := true;
      match trigger
      case Autofocus =>
        ReachableStep(View(), TriggerAutofocus);
        startAf, cancelAf := true, false;
      case CancelAutofocus =>
        ReachableStep(View(), TriggerCancel);
        startAf, cancelAf := false, true;
      case PrecaptureMetering =>
        ReachableStep(View(), TriggerPrecapture);
        startPrecapture := true;
      case UnknownTrigger => ok := false;
    }

    method MakeCopy()
      requires Enabled(View(), TakeSnapshot)
      modifies this`startAf, this`cancelAf, this`afModeChange, this`startPrecapture, this`phase
      ensures View() == Apply(old(View()), TakeSnapshot)
    {
      var triggered, cancelled := false, false;
      if startAf {
        triggered, startAf := true, false;
      } else if cancelAf {
        cancelled, cancelAf := true, false;
      }
      phase := Snapped(Snapshot(triggered, cancelled, afModeChange, afMode, startPrecapture, aeMode, aeLock, aeState));
      afModeChange, startPrecapture := false, false;
    }

    method CopyShared()
      requires Valid() && Enabled(View(), TakeSnapshot)
      modifies this`startAf, this`cancelAf, this`afModeChange, this`startPrecapture, this`phase
      ensures Valid() && View() == Apply(old(View()), TakeSnapshot)
      ensures phase.Snapped? && var snap := phase.snap;
              && snap.afTriggered == old(startAf) && snap.afCancelled == (!old(startAf) && old(cancelAf))
              && snap.afModeChange == old(afModeChange) && snap.afMode == afMode
              && snap.precaptureTriggered == old(startPrecapture)
              && snap.aeMode == aeMode && snap.aeLock == aeLock && snap.aeState == aeState
      ensures !startAf && !afModeChange && !startPrecapture && (cancelAf <==> old(startAf) && old(cancelAf))
    {
      ReachableStep(View(), TakeSnapshot);
      MakeCopy();
    }

    method BeginAfScan(u: Unit)
      modifies this`afScanDuration, this`afDrawn, this`afSlept
      ensures forall a: AfState, b: AfState :: AfWith(b) == StartAf(old(AfWith(a)), b, u)
    {
      afScanDuration := Draw(u, kMinAfDuration, kMaxAfDuration);
      afDrawn, afSlept := afScanDuration, 0;
    }

    method AfTriggered(mode: AfMode, state: AfState, u: Unit) returns (r: AfState)
      modifies this`afScanDuration, this`afDrawn, this`afSlept, this`lockAfterPassiveScan
      ensures AfWith(r) == ProcessAfTrigger(mode, old(AfWith(state)), u)
    {
      r := state;
      match mode
      case AfOff =>
      case AfEdof =>
      case AfUnknown =>
      case AfPicture =>
        if state.PassiveScan? {
          lockAfterPassiveScan := true;
        } else if state.AfInactive? {
          r := NotFocusedLocked;
        } else if state.PassiveFocused? {
          r := FocusedLocked;
        }
      case AfVideo =>
        if state.PassiveScan? || state.AfInactive? {
          r := NotFocusedLocked;
        } else if state.PassiveFocused? {
          r := FocusedLocked;
        }
      case _ =>
        if state.AfInactive? || state.FocusedLocked? || state.NotFocusedLocked? {
          BeginAfScan(u);
          r := ActiveScan;
          assert AfWith(r) == StartAf(old(AfWith(state)), r, u);
        }
    }

    method AfScanUpdated(mode: AfMode, state: AfState, success: Unit, maxSleep: int) returns (r: AfState, sleep: int)
      modifies this`lockAfterPassiveScan
      ensures AfWith(r) == UpdateAfScan(mode, old(AfWith(state)), success)
      ensures sleep == AfSleep(AfWith(r), maxSleep)
    {
      r, sleep := state, maxSleep;
      if !(state.ActiveScan? || state.PassiveScan?) {
        return;
      }
      if afScanDuration <= 0 {
        match mode
        case AfMacro => r := if success < kAfSuccessRate then FocusedLocked else NotFocusedLocked;
        case AfAuto => r := if success < kAfSuccessRate then FocusedLocked else NotFocusedLocked;
        case AfPicture =>
          if lockAfterPassiveScan {
            r := FocusedLocked;
            lockAfterPassiveScan := false;
          } else {
            r := PassiveFocused;
          }
        case AfVideo => r := PassiveFocused;
        case _ =>
      } else if afScanDuration <= maxSleep {
        sleep := afScanDuration;
      }
    }

    method AfScanStarted(mode: AfMode, state: AfState, start: Unit, u: Unit) returns (r: AfState)
      modifies this`afScanDuration, this`afDrawn, this`afSlept
      ensures AfWith(r) == MaybeStartAfScan(mode, old(AfWith(state)), start, u)
    {
      r := state;
      if (mode.AfVideo? || mode.AfPicture?) && (state.AfInactive? || state.PassiveFocused?)
          && start < kContinuousAfStartRate {
        BeginAfScan(u);
        r := PassiveScan;
        assert AfWith(r) == StartAf(old(AfWith(state)), r, u);
      }
    }

    method FocusState(snap: Snapshot, d: Draws) returns (state: AfState, sleep: int)
      modifies this`afScanDuration, this`afDrawn, this`afSlept, this`lockAfterPassiveScan
      ensures AfWith(state) == Focused(snap, old(AfWith(afState)), d)
      ensures sleep == AfSleep(AfWith(state), kControlCycleDelay)
    {
      state, sleep := afState, kControlCycleDelay;
      if snap.afCancelled || snap.afModeChange {
        state := AfInactive;
        afScanDuration, lockAfterPassiveScan := 0, false;
      }
      if snap.afTriggered {
        state := AfTriggered(snap.afMode, state, d.trigger);
      }
      state := AfScanStarted(snap.afMode, state, d.start, d.scan);
      state, sleep := AfScanUpdated(snap.afMode, state, d.success, sleep);
    }

    // The autofocus half of the loop body.
    method FocusHalf(d: Draws)
      requires Enabled(View(), FocusPart(d))
      modifies this
      ensures View() == Apply(old(View()), FocusPart(d))
    {
      var snap := phase.snap;
      var state, sleep := FocusState(snap, d);
      afState := state;
      phase := AfDone(snap, sleep);
    }

    method RunFocus(d: Draws)
      requires Valid() && Enabled(View(), FocusPart(d))
      modifies this
      ensures Valid() && View() == Apply(old(View()), FocusPart(d))
      ensures Compatible(phase.snap.afMode, afState)
    {
      ReachableStep(View(), FocusPart(d));
      FocusHalf(d);
      ReachableInv(View());
    }

    method AeScanUpdated(lock: bool, state: AeState, jump: Unit, maxSleep: int) returns (r: AeState, sleep: int)
      modifies this`aeScanDuration, this`exposureTime
      ensures AeWith(r) == UpdateAeScan(lock, old(AeWith(state)))
      ensures sleep == AeSleep(AeWith(r), maxSleep)
      ensures exposureTime == NextExposure(old(AeWith(state)), lock, old(exposureTime), jump)
    {
      r, sleep := state, maxSleep;
      if lock && !state.Precapture? {
        aeScanDuration := 0;
        r := AeLocked;
      } else if state.Searching? || state.Precapture? {
        if aeScanDuration <= 0 {
          r := if lock then AeLocked else Converged;
          exposureTime := kNormalExposureTime;
        } else {
          if aeScanDuration <= maxSleep {
            sleep := aeScanDuration;
          }
          exposureTime := exposureTime + Truncate(jump * 2.0 * kExposureJump as real - kExposureJump as real);
          if exposureTime < kMinExposureTime {
            exposureTime := kMinExposureTime;
          }
        }
      }
    }

    method AeScanStarted(snap: Snapshot, d: Draws) returns (state: AeState)
      modifies this`aeScanDuration, this`aeDrawn, this`aeSlept
      ensures AeWith(state) == ExposureStarted(snap, old(AeWith(aeState)), d)
    {
      state := snap.aeState;
      if snap.precaptureTriggered && snap.aeMode.AeOn? {
        state := Precapture;
        aeScanDuration := Draw(d.precapture, kMinPrecaptureAeDuration, kMaxPrecaptureAeDuration);
        aeDrawn, aeSlept := aeScanDuration, 0;
      }
      if !snap.aeLock && snap.aeMode.AeOn? && (state.AeInactive? || state.Converged?) && d.aeStart < kAeScanStartRate {
        aeScanDuration := Draw(d.aeScan, kMinAeDuration, kMaxAeDuration);
        aeDrawn, aeSlept := aeScanDuration, 0;
        state := Searching;
      }
    }

    // The auto-exposure half of the loop body.
    method ExposureHalf(d: Draws)
      requires Enabled(View(), ExposurePart(d))
      modifies this
      ensures View() == Apply(old(View()), ExposurePart(d))
    {
      var snap, sleep := phase.snap, phase.sleep;
      var state := AeScanStarted(snap, d);
      state, sleep := AeScanUpdated(snap.aeLock, state, d.jump, sleep);
      aeState := state;
      phase := Sleeping(sleep);
    }

    method RunExposure(d: Draws)
      requires Valid() && Enabled(View(), ExposurePart(d))
      modifies this
      ensures Valid() && View() == Apply(old(View()), ExposurePart(d))
      ensures Lost(View()) <==> old(StaleLock(View()))
      ensures 0 < phase.sleep <= kControlCycleDelay && exposureTime >= kMinExposureTime
      ensures AfScanning(AfWith(afState)) ==> phase.sleep <= afScanDuration
      ensures AeScanning(AeWith(aeState)) ==> phase.sleep <= aeScanDuration
    {
      ReachableStep(View(), ExposurePart(d));
      LostExactly(View(), ExposurePart(d));
      ExposureHalf(d);
      ReachableInv(View());
    }

    // After the sleep.
    method CountDownScans()
      requires Enabled(View(), Wake)
      modifies this
      ensures View() == Apply(old(View()), Wake)
    {
      var sleep := phase.sleep;
      if afScanDuration > 0 {
        afScanDuration := afScanDuration - sleep;
      }
      if aeScanDuration > 0 {
        aeScanDuration := aeScanDuration - sleep;
      }
      afSlept, aeSlept := afSlept + sleep, aeSlept + sleep;
      phase := Top;
    }

    method AfterSleep()
      requires Valid() && Enabled(View(), Wake)
      modifies this
      ensures Valid() && View() == Apply(old(View()), Wake)
      ensures AfScanning(AfWith(afState)) ==> 0 <= afScanDuration == afDrawn - afSlept
      ensures AeScanning(AeWith(aeState)) ==> 0 <= aeScanDuration == aeDrawn - aeSlept
      ensures phase == Top
      ensures afScanDuration
           == if old(afScanDuration) > 0 then old(afScanDuration) - old(phase).sleep else old(afScanDuration)
      ensures aeScanDuration
           == if old(aeScanDuration) > 0 then old(aeScanDuration) - old(phase).sleep else old(aeScanDuration)
    {
      ReachableStep(View(), Wake);
      CountDownScans();
      ReachableInv(View());
    }
  }
}
