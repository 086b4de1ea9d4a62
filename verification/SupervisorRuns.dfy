/** What every run of the supervisor keeps. */
module SupervisorRuns {
  import opened Wrappers
  import opened Folds
  import opened CameraConfig
  import opened CameraFormats
  import opened RestartBackoff
  import opened ViewerCount
  import opened PathAlloc
  import opened OverrideFile
  import opened Supervisor
  import Decimal

  /** The bookkeeping of a slot agrees with its history, and its starts were gated. */
  ghost predicate SlotOk(s: CamSlot) {
    Gated(s.starts) && s.backoff == After(s.starts) && s.viewerCount == Count(s.reports)
  }

  ghost predicate SlotsOk(slots: seq<CamSlot>) {
    forall i | 0 <= i < |slots| :: SlotOk(slots[i]) && slots[i].cfg.rtspPath == Path(i)
  }

  ghost predicate Inv(s: State) {
    SlotsOk(s.slots)
  }

  // ----- One slot -----

  lemma StartKeepsSlot(s: CamSlot, stop: bool, a: Attempt)
    requires SlotOk(s)
    requires s.starts == [] || a.at >= s.backoff.earliestNext
    ensures SlotOk(StartNoSleep(s, stop, a))
  {
    GatedSnoc(s.starts, a.at);
  }

  lemma RestartKeepsSlot(s: CamSlot, stop: bool, a: Attempt)
    ensures SlotOk(Restarted(s, stop, a))
  {
    StartKeepsSlot(Rebuild(s), stop, a);
  }

  lemma TickKeepsSlot(s: CamSlot, now: int, stop: bool, a: Attempt)
    requires SlotOk(s) && a.at >= now
    ensures SlotOk(TickSlot(s, now, stop, a))
  {
    if s.Active() {
      var s1 := if !s.running && s.viewerCount != 0 then ResetViewers(s) else s;
      if !s1.running && now >= s1.backoff.earliestNext {
        StartKeepsSlot(s1, stop, a);
      }
    }
  }

  lemma PresenceKeepsSlot(s: CamSlot, here: bool, stop: bool, a: Attempt)
    requires SlotOk(s)
    ensures SlotOk(PresenceSlot(s, here, stop, a))
  {
    RestartKeepsSlot(s.(present := true), stop, a);
  }

  lemma CountKeepsSlot(s: CamSlot, e: ViewerEvent)
    requires SlotOk(s)
    ensures SlotOk(Counted(s, e))
  {
    FoldSnoc(Bump, 0, s.reports, e);
  }

  lemma SwitchKeepsSlot(s: CamSlot, want: bool, stop: bool, a: Attempt)
    requires SlotOk(s)
    ensures SlotOk(Switched(s, want, stop, a))
  {
    RestartKeepsSlot(s.(cfg := s.cfg.(enabled := want)), stop, a);
  }

  lemma LaunchKeepsSlot(d: Device, path: string, formats: Formats, db: KnownDb, settings: Settings, files: Files,
      stop: bool, a: Attempt)
    ensures var s := Launched(NewSlot(d, path, formats, db, settings, files), stop, a);
      SlotOk(s) && s.cfg.rtspPath == path
  {
    hide Load, PickDefault;
    StartKeepsSlot(NewSlot(d, path, formats, db, settings, files), stop, a);
  }

  // ----- All slots -----

  lemma PathsOfSlots(slots: seq<CamSlot>)
    requires SlotsOk(slots)
    ensures AllocatedPath(Paths(slots)) == Path(|slots|)
  {
    NextPath(Paths(slots));
  }

  lemma {:induction false} AppendKeepsSlots(slots: seq<CamSlot>, known: set<string>, devices: seq<Device>,
      formats: Device -> Formats, db: KnownDb, settings: Settings, files: Files, stop: bool, at: Attempts)
    requires SlotsOk(slots)
    ensures SlotsOk(AppendSlots(slots, known, devices, formats, db, settings, files, stop, at))
  {
    hide SlotOk, NewSlot, Launched, AllocatedPath, Paths, Path;
    if devices != [] {
      var n := |devices| - 1;
      AppendKeepsSlots(slots, known, devices[..n], formats, db, settings, files, stop, at);
      var front := AppendSlots(slots, known, devices[..n], formats, db, settings, files, stop, at);
      PathsOfSlots(front);
      LaunchKeepsSlot(devices[n], Path(|front|), formats(devices[n]), db, settings, files, stop, at(|front|));
    }
  }

  lemma UpdateKeepsSlots(slots: seq<CamSlot>, i: nat, t: CamSlot)
    requires SlotsOk(slots) && i < |slots|
    requires SlotOk(t) && t.cfg.rtspPath == slots[i].cfg.rtspPath
    ensures SlotsOk(slots[i := t])
  {
  }

  lemma TickKeepsSlots(s: State, now: int, at: Attempts)
    requires SlotsOk(s.slots) && forall i: nat :: at(i).at >= now
    ensures SlotsOk(TickSlots(s.slots, now, s.stop, at))
  {
    forall i | 0 <= i < |s.slots| ensures SlotOk(TickSlot(s.slots[i], now, s.stop, at(i))) {
      TickKeepsSlot(s.slots[i], now, s.stop, at(i));
    }
  }

  lemma PresenceKeepsSlots(s: State, here: set<string>, at: Attempts)
    requires SlotsOk(s.slots)
    ensures SlotsOk(PresenceSlots(s.slots, here, s.stop, at))
  {
    forall i | 0 <= i < |s.slots|
      ensures SlotOk(PresenceSlot(s.slots[i], s.slots[i].cfg.friendlyName in here, s.stop, at(i)))
    {
      PresenceKeepsSlot(s.slots[i], s.slots[i].cfg.friendlyName in here, s.stop, at(i));
    }
  }

  lemma AnnounceKeepsInv(s: State, i: nat, t: CamSlot)
    requires Inv(s) && i < |s.slots|
    requires SlotOk(t) && t.cfg.rtspPath == s.slots[i].cfg.rtspPath
    ensures Inv(Announce(s, i, t))
  {
    UpdateKeepsSlots(s.slots, i, Synced(t));
  }

  lemma RestartKeepsInv(s: State, i: nat, t: CamSlot, a: Attempt)
    requires Inv(s) && i < |s.slots| && t.cfg.rtspPath == s.slots[i].cfg.rtspPath
    ensures Inv(Announce(s, i, Restarted(t, s.stop, a)))
  {
    RestartKeepsSlot(t, s.stop, a);
    AnnounceKeepsInv(s, i, Restarted(t, s.stop, a));
  }

  lemma SwitchKeepsInv(s: State, name: string, enabled: Option<bool>, writable: bool, a: Attempt)
    requires Inv(s)
    ensures Inv(DoSetStreamEnabled(s, name, enabled, writable, a))
  {
    var i := FindName(s.slots, name);
    if i < |s.slots| && enabled.Some? {
      SwitchKeepsSlot(s.slots[i], enabled.value, s.stop, a);
      AnnounceKeepsInv(s, i, Switched(s.slots[i], enabled.value, s.stop, a));
    }
  }

  lemma HookKeepsInv(s: State, kind: string, path: string)
    requires Inv(s)
    ensures Inv(DoViewerHook(s, kind, path))
  {
    var i := FindPath(s.slots, path);
    if i < |s.slots| && ReportOf(kind).Some? {
      CountKeepsSlot(s.slots[i], ReportOf(kind).value);
      UpdateKeepsSlots(s.slots, i, Counted(s.slots[i], ReportOf(kind).value));
    }
  }

  lemma TickKeepsInv(s: State, now: int, mtx: Attempt, at: Attempts)
    requires Inv(s) && forall i: nat :: at(i).at >= now
    ensures Inv(DoTick(s, now, mtx, at))
  {
    hide SlotsOk, TickLog;
    TickKeepsSlots(s, now, at);
  }

  lemma RestartCameraKeepsInv(s: State, name: string, a: Attempt)
    requires Inv(s)
    ensures Inv(DoRestartCamera(s, name, a))
  {
    hide Inv, FindName, Announce, Restarted;
    var i := FindName(s.slots, name);
    if i < |s.slots| { RestartKeepsInv(s, i, s.slots[i], a); }
  }

  lemma SetModeKeepsInv(s: State, name: string, mode: string, w: int, h: int, f: int, writable: bool, a: Attempt)
    requires Inv(s)
    ensures Inv(DoSetMode(s, name, mode, w, h, f, writable, a))
  {
    hide SlotsOk, FindName, Restarted, ModeUpdate, ModeFromString, Stored;
    var i := FindName(s.slots, name);
    if i < |s.slots| {
      RestartKeepsInv(s, i, s.slots[i].(cfg := Reconfigured(s.slots[i].cfg, ModeUpdate(mode, w, h, f))), a);
    }
  }

  lemma PresenceKeepsInv(s: State, current: seq<Device>, at: Attempts)
    requires Inv(s)
    ensures Inv(DoPresenceDiff(s, current, at))
  {
    hide SlotsOk, DeviceNames;
    PresenceKeepsSlots(s, DeviceNames(current), at);
  }

  lemma AppendKeepsInv(s: State, db: KnownDb, devices: seq<Device>, formats: Device -> Formats, listChanged: bool,
                       at: Attempts)
    requires Inv(s)
    ensures Inv(DoAppendNew(s, db, devices, formats, listChanged, at))
  {
    hide SlotsOk, AppendSlots, Names, Views;
    AppendKeepsSlots(s.slots, Names(s.slots), devices, formats, db, s.settings, s.files, s.stop, at);
  }

  lemma CrashKeepsInv(s: State, i: nat)
    requires Inv(s) && i < |s.slots|
    ensures Inv(s.(slots := s.slots[i := s.slots[i].(running := false)]))
  {
    UpdateKeepsSlots(s.slots, i, s.slots[i].(running := false));
  }

  lemma SweepKeepsInv(s: State)
    requires Inv(s)
    ensures Inv(DoFinalSweep(s))
  {
  }

  lemma StepKeepsInv(db: KnownDb, s: State, step: Step)
    requires Inv(s) && Enabled(s, step)
    ensures Inv(Next(db, s, step))
  {
    hide DoTick, DoRestartCamera, DoSetMode, DoSetStreamEnabled, DoViewerHook, DoPresenceDiff, DoAppendNew,
      DoFinalSweep, SlotsOk, Views;
    match step
    case Tick(now, mtx, at) => TickKeepsInv(s, now, mtx, at);
    case RestartCamera(name, a) => RestartCameraKeepsInv(s, name, a);
    case SetMode(name, mode, w, h, f, writable, a) => SetModeKeepsInv(s, name, mode, w, h, f, writable, a);
    case SetStreamEnabled(name, enabled, writable, a) => SwitchKeepsInv(s, name, enabled, writable, a);
    case ViewerHook(kind, path) => HookKeepsInv(s, kind, path);
    case PresenceDiff(current, at) => PresenceKeepsInv(s, current, at);
    case AppendNew(devices, formats, listChanged, at) => AppendKeepsInv(s, db, devices, formats, listChanged, at);
    case Crash(i) => if i < |s.slots| { CrashKeepsInv(s, i); }
    case FinalSweep => SweepKeepsInv(s);
    case _ =>
  }

  lemma BootInv(db: KnownDb, o: Origin)
    ensures Inv(Boot(db, o))
  {
    hide NewSlot, Launched, Path;
    forall i | 0 <= i < |o.devices| ensures SlotOk(BootSlot(db, o, i)) && BootSlot(db, o, i).cfg.rtspPath == Path(i) {
      LaunchKeepsSlot(o.devices[i], Path(i), o.formats(i), db, o.settings, o.files, false, o.at(i));
    }
  }

  lemma ReachedStep(db: KnownDb, o: Origin, steps: seq<Step>, k: nat)
    requires k < |steps|
    ensures Reached(db, o, steps[..k + 1]) == Next(db, Reached(db, o, steps[..k]), steps[k])
  {
    assert steps[..k + 1] == steps[..k] + [steps[k]];
    FoldSnoc((s: State, step: Step) => Next(db, s, step), Boot(db, o), steps[..k], steps[k]);
  }

  lemma {:induction false} RunsKeepInv(db: KnownDb, o: Origin, steps: seq<Step>, k: nat)
    requires IsRun(db, o, steps) && k <= |steps|
    ensures Inv(Reached(db, o, steps[..k]))
  {
    hide Next, Inv, Boot, Enabled;
    if k == 0 {
      BootInv(db, o);
    } else {
      RunsKeepInv(db, o, steps, k - 1);
      ReachedStep(db, o, steps, k - 1);
      StepKeepsInv(db, Reached(db, o, steps[..k - 1]), steps[k - 1]);
    }
  }

  // ----- Theorems over all runs -----

  /** Between two rebuilds of a camera's publisher: the delay is the doubled,
      capped one; n starts in a row span at least 15 n - 60 seconds; and no
      minute holds more than six. */
  lemma RestartsAreBounded(db: KnownDb, o: Origin, steps: seq<Step>, i: nat, j: nat, n: nat)
    requires IsRun(db, o, steps)
    requires i < |Reached(db, o, steps).slots| && 0 < n
    requires j + n <= |Reached(db, o, steps).slots[i].starts|
    ensures var slot := Reached(db, o, steps).slots[i];
      && slot.backoff.delay == Min(1000 * Pow2(slot.backoff.restarts), 30000)
      && slot.starts[j + n - 1] - slot.starts[j] >= 15000 * n - 60000
      && (slot.starts[j + n - 1] - slot.starts[j] <= 60000 ==> n <= 6)
  {
    hide Reached, Gated, After, Path;
    RunsKeepInv(db, o, steps, |steps|);
    assert steps[..|steps|] == steps;
    var starts := Reached(db, o, steps).slots[i].starts;
    DelayClosedForm(starts);
    AmortisedBound(starts, j, n);
    if starts[j + n - 1] - starts[j] <= 60000 {
      AtMostSixPerMinute(starts, j, j + n - 1);
    }
  }

  /** The count shown for a camera is the greatest net number of reads over the
      suffixes of what the hook reported since the last reset. */
  lemma ViewersAreMaxSuffix(db: KnownDb, o: Origin, steps: seq<Step>, i: nat)
    requires IsRun(db, o, steps) && i < |Reached(db, o, steps).slots|
    ensures var slot := Reached(db, o, steps).slots[i];
      && slot.viewerCount >= 0
      && (forall k | 0 <= k <= |slot.reports| :: Net(slot.reports[k..]) <= slot.viewerCount)
      && (exists k | 0 <= k <= |slot.reports| :: Net(slot.reports[k..]) == slot.viewerCount)
      && ((slot.viewerCount == Net(slot.reports))
          <==> (forall k | 0 <= k <= |slot.reports| :: Net(slot.reports[..k]) >= 0))
  {
    hide Reached, Net, Count, Path;
    RunsKeepInv(db, o, steps, |steps|);
    assert steps[..|steps|] == steps;
    var reports := Reached(db, o, steps).slots[i].reports;
    CountIsMaxSuffix(reports);
    CountNeverNegative(reports);
    CountIsNetExactly(reports);
  }

  /** Slot i streams under path number i, in every state; so paths are distinct
      and a slot never changes its path. */
  lemma PathsAreStable(db: KnownDb, o: Origin, steps: seq<Step>, i: nat, j: nat)
    requires IsRun(db, o, steps)
    requires i < |Reached(db, o, steps).slots| && j < |Reached(db, o, steps).slots|
    ensures var slots := Reached(db, o, steps).slots;
      && slots[i].cfg.rtspPath == "/webcam" + Decimal.ToString(i)
      && (slots[i].cfg.rtspPath == slots[j].cfg.rtspPath ==> i == j)
      && AllocatedPath(Paths(slots)) == "/webcam" + Decimal.ToString(|slots|)
  {
    hide Reached, SlotOk;
    RunsKeepInv(db, o, steps, |steps|);
    assert steps[..|steps|] == steps;
    var slots := Reached(db, o, steps).slots;
    PathsOfSlots(slots);
    if Path(i) == Path(j) { PathInjective(i, j); }
  }

  /** A hook report counts on the one camera that streams under its path: a read adds
      a viewer, an unread takes one away if there is one, and nothing else changes. */
  lemma ReportTouchesOneSlot(s: State, kind: string, path: string, i: nat)
    requires Inv(s) && i < |s.slots|
    ensures var t, was := DoViewerHook(s, kind, path), s.slots[i];
      && |t.slots| == |s.slots|
      && t.slots[i] == was.(viewerCount := t.slots[i].viewerCount, reports := t.slots[i].reports)
      && t.slots[i].viewerCount ==
           (if was.cfg.rtspPath != "/" + path then was.viewerCount
            else if kind == "read" then was.viewerCount + 1
            else if kind == "unread" && was.viewerCount > 0 then was.viewerCount - 1
            else was.viewerCount)
      && t.slots[i].reports ==
           (if was.cfg.rtspPath != "/" + path then was.reports
            else if kind == "read" then was.reports + [Read]
            else if kind == "unread" then was.reports + [Unread]
            else was.reports)
  {
    if s.slots[i].cfg.rtspPath == "/" + path {
      PathIsFound(s, path, i);
    } else {
      OtherIsFound(s, path);
    }
    hide View, FindPath, Path, SlotsOk;
  }

  lemma PathIsFound(s: State, path: string, i: nat)
    requires Inv(s) && i < |s.slots| && s.slots[i].cfg.rtspPath == "/" + path
    ensures FindPath(s.slots, path) == i
  {
    var j := FindPath(s.slots, path);
    assert ("/" + path)[1..] == path;
    assert Path(j)[0] == '/' && Path(j) == "/" + Path(j)[1..];
    if j < i { PathInjective(i, j); }
  }

  lemma OtherIsFound(s: State, path: string)
    requires Inv(s)
    ensures var j := FindPath(s.slots, path); j < |s.slots| ==> s.slots[j].cfg.rtspPath == "/" + path
  {
    var j := FindPath(s.slots, path);
    if j < |s.slots| { assert Path(j)[0] == '/' && Path(j) == "/" + Path(j)[1..]; }
  }
}
