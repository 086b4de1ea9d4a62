/** Which cameras publish, what a tick settles, and what happens after the stop flag. */
module SupervisorGate {
  import opened Wrappers
  import opened Folds
  import opened CameraConfig
  import opened CameraFormats
  import opened OverrideFile
  import opened PathAlloc
  import opened ViewerCount
  import opened Supervisor
  import opened SupervisorRuns

  /** A publisher runs only for a camera that is present and enabled. */
  predicate GateHolds(slots: seq<CamSlot>) {
    forall i | 0 <= i < |slots| :: slots[i].running ==> slots[i].Active()
  }

  /** The slot that a restart or a mode change acts on, or |slots|. */
  function RestartTarget(s: State, step: Step): (i: nat)
    ensures i <= |s.slots|
  {
    match step
    case RestartCamera(name, _) => if name == "" then |s.slots| else FindName(s.slots, name)
    case SetMode(name, mode, _, _, _, _, _) =>
      if name == "" || ModeFromString(mode) == Unknown then |s.slots| else FindName(s.slots, name)
    case _ => |s.slots|
  }

  /** A restart or mode change that brings up an unplugged or disabled camera. */
  predicate StartsInactive(s: State, step: Step) {
    var i := RestartTarget(s, step);
    i < |s.slots| && !s.slots[i].Active() && !s.stop && step.a.up
  }

  lemma {:induction false} AppendKeepsGate(slots: seq<CamSlot>, known: set<string>, devices: seq<Device>,
      formats: Device -> Formats, db: KnownDb, settings: Settings, files: Files, stop: bool, at: Attempts)
    requires GateHolds(slots)
    ensures GateHolds(AppendSlots(slots, known, devices, formats, db, settings, files, stop, at))
  {
    if devices != [] {
      AppendKeepsGate(slots, known, devices[..|devices| - 1], formats, db, settings, files, stop, at);
    }
  }

  lemma UpdateGate(slots: seq<CamSlot>, i: nat, t: CamSlot)
    requires GateHolds(slots) && i < |slots|
    ensures GateHolds(slots[i := t]) <==> (t.running ==> t.Active())
  {
    assert slots[i := t][i] == t;
  }

  /** A slot restarted with unchanged presence and enabled flag. */
  lemma GateAtRestart(s: State, i: nat, t: CamSlot, a: Attempt)
    requires GateHolds(s.slots) && i < |s.slots| && t.Active() == s.slots[i].Active()
    ensures GateHolds(Announce(s, i, Restarted(t, s.stop, a)).slots) <==> (!s.slots[i].Active() ==> s.stop || !a.up)
  {
    UpdateGate(s.slots, i, Synced(Restarted(t, s.stop, a)));
  }

  lemma GateAtRestartCamera(s: State, name: string, a: Attempt)
    requires GateHolds(s.slots)
    ensures GateHolds(DoRestartCamera(s, name, a).slots) <==> !StartsInactive(s, RestartCamera(name, a))
  {
    hide GateHolds, FindName, Announce, Restarted;
    var i := FindName(s.slots, name);
    if i < |s.slots| { GateAtRestart(s, i, s.slots[i], a); }
  }

  lemma GateAtSetMode(s: State, name: string, mode: string, w: int, h: int, f: int, writable: bool, a: Attempt)
    requires GateHolds(s.slots)
    ensures GateHolds(DoSetMode(s, name, mode, w, h, f, writable, a).slots)
      <==> !StartsInactive(s, SetMode(name, mode, w, h, f, writable, a))
  {
    hide GateHolds, FindName, Announce, Restarted, Stored, ModeFromString, Given;
    var i := FindName(s.slots, name);
    if i < |s.slots| {
      GateAtRestart(s, i, s.slots[i].(cfg := Reconfigured(s.slots[i].cfg, ModeUpdate(mode, w, h, f))), a);
    }
  }

  lemma GateAtAppend(s: State, db: KnownDb, devices: seq<Device>, formats: Device -> Formats, listChanged: bool,
                     at: Attempts)
    requires GateHolds(s.slots)
    ensures GateHolds(DoAppendNew(s, db, devices, formats, listChanged, at).slots)
  {
    hide GateHolds, AppendSlots, Names, Views;
    AppendKeepsGate(s.slots, Names(s.slots), devices, formats, db, s.settings, s.files, s.stop, at);
  }

  lemma GateAtSwitch(s: State, name: string, enabled: Option<bool>, writable: bool, a: Attempt)
    requires GateHolds(s.slots)
    ensures GateHolds(DoSetStreamEnabled(s, name, enabled, writable, a).slots)
  {
    var i := FindName(s.slots, name);
    if i < |s.slots| && enabled.Some? {
      UpdateGate(s.slots, i, Synced(Switched(s.slots[i], enabled.value, s.stop, a)));
    }
  }

  lemma GateAtHook(s: State, kind: string, path: string)
    requires GateHolds(s.slots)
    ensures GateHolds(DoViewerHook(s, kind, path).slots)
  {
    var i := FindPath(s.slots, path);
    if i < |s.slots| && ReportOf(kind).Some? { UpdateGate(s.slots, i, Counted(s.slots[i], ReportOf(kind).value)); }
  }

  lemma GateAtSweeps(s: State, now: int, mtx: Attempt, current: seq<Device>, at: Attempts)
    requires GateHolds(s.slots)
    ensures GateHolds(DoTick(s, now, mtx, at).slots) && GateHolds(DoPresenceDiff(s, current, at).slots)
  {
  }

  /** Exactly when one step breaks the gate: when a restart or a mode change
      succeeds in starting a camera that is unplugged or disabled. */
  lemma GateStep(db: KnownDb, s: State, step: Step)
    requires GateHolds(s.slots)
    ensures GateHolds(Next(db, s, step).slots) <==> !StartsInactive(s, step)
  {
    hide DoTick, DoRestartCamera, DoSetMode, DoSetStreamEnabled, DoViewerHook, DoPresenceDiff, DoAppendNew, FindName,
      ModeFromString;
    match step
    case Tick(now, mtx, at) => GateAtSweeps(s, now, mtx, [], at);
    case RestartCamera(name, a) => GateAtRestartCamera(s, name, a);
    case SetMode(name, mode, w, h, f, writable, a) => GateAtSetMode(s, name, mode, w, h, f, writable, a);
    case SetStreamEnabled(name, enabled, writable, a) => GateAtSwitch(s, name, enabled, writable, a);
    case ViewerHook(kind, path) => GateAtHook(s, kind, path);
    case PresenceDiff(current, at) => GateAtSweeps(s, 0, Attempt(0, false), current, at);
    case AppendNew(devices, formats, listChanged, at) => GateAtAppend(s, db, devices, formats, listChanged, at);
    case _ =>
  }

  lemma GateAtBoot(db: KnownDb, o: Origin)
    ensures GateHolds(Boot(db, o).slots)
  {
  }

  /** Over a whole run without such a step, a camera publishes only while present and enabled. */
  lemma {:induction false} GateOverRuns(db: KnownDb, o: Origin, steps: seq<Step>, k: nat)
    requires k <= |steps|
    requires forall j | 0 <= j < k :: !StartsInactive(Reached(db, o, steps[..j]), steps[j])
    ensures GateHolds(Reached(db, o, steps[..k]).slots)
  {
    hide Next, GateHolds, Boot, StartsInactive;
    if k == 0 {
      GateAtBoot(db, o);
    } else {
      var s := Reached(db, o, steps[..k - 1]);
      GateOverRuns(db, o, steps, k - 1);
      assert Reached(db, o, steps[..k]) == Next(db, s, steps[k - 1]) by { ReachedStep(db, o, steps, k - 1); }
      assert !StartsInactive(s, steps[k - 1]);
      GateStep(db, s, steps[k - 1]);
    }
  }

  /** A publisher that was started against the gate stays up: a tick does not stop it. */
  lemma TickLeavesInactiveRunning(s: State, now: int, mtx: Attempt, at: Attempts, i: nat)
    requires i < |s.slots| && !s.slots[i].Active()
    ensures DoTick(s, now, mtx, at).slots[i].running == s.slots[i].running
  {
  }

  /** A run that breaks the gate: one disabled camera, restarted by name. */
  lemma DisabledCameraCanPublish(db: KnownDb, o: Origin, name: string, a: Attempt)
    requires name != "" && a.up && |o.devices| == 1 && o.devices[0].name == name
    requires !Boot(db, o).slots[0].cfg.enabled
    ensures IsRun(db, o, [RestartCamera(name, a)])
    ensures !GateHolds(Reached(db, o, [RestartCamera(name, a)]).slots)
  {
    hide Next, Load, PickDefault, Path;
    var steps := [RestartCamera(name, a)];
    assert steps[..0] == [] && steps[..1] == steps;
    ReachedStep(db, o, steps, 0);
    GateStep(db, Boot(db, o), steps[0]);
  }

  // ----- One tick -----

  lemma {:induction false} TickLogHolds(slots: seq<CamSlot>, now: int, stop: bool, at: Attempts, i: nat)
    requires i < |slots|
    ensures forall e | e in TickEvents(slots[i], now, stop, at(i)) :: e in TickLog(slots, now, stop, at)
  {
    var n := |slots| - 1;
    if i < n {
      TickLogHolds(slots[..n], now, stop, at, i);
    }
  }

  lemma SlotSettles(s: CamSlot, now: int, stop: bool, a: Attempt)
    requires s.running ==> s.Active()
    ensures var t := TickSlot(s, now, stop, a);
      && t.cfg == s.cfg && t.present == s.present
      && t.lastRunning == (t.Active() && t.running)
      && (!t.Active() || !s.running ==> t.viewerCount == 0)
      && (t.lastRunning != s.lastRunning ==>
            CameraStateChanged(View(t)) in TickEvents(s, now, stop, a) && View(t).running == t.lastRunning)
  {
  }

  lemma TailHolds<T>(a: seq<T>, b: seq<T>, c: seq<T>)
    requires a <= b
    ensures a <= b + c && forall e | e in c :: e in (b + c)[|a|..]
  {
    assert (b + c)[|a|..] == b[|a|..] + c;
  }

  lemma TickLogGrows(s: State, now: int, mtx: Attempt, at: Attempts)
    ensures s.log <= DoTick(s, now, mtx, at).log
    ensures forall e | e in TickLog(s.slots, now, s.stop, at) :: e in DoTick(s, now, mtx, at).log[|s.log|..]
  {
    TailHolds(s.log, MtxTick(s, now, mtx).log, TickLog(s.slots, now, s.stop, at));
  }

  /** While the gate holds, a tick leaves every camera settled: `lastRunning` is
      the state of an active camera's process and false for any other camera; an
      inactive camera and one found down have no viewers; and every change of
      `lastRunning` was announced with the new value. */
  lemma TickSettles(s: State, now: int, mtx: Attempt, at: Attempts, i: nat)
    requires GateHolds(s.slots) && i < |s.slots|
    ensures var t := DoTick(s, now, mtx, at);
      var was, after := s.slots[i], t.slots[i];
      && |t.slots| == |s.slots| && s.log <= t.log
      && after.cfg == was.cfg && after.present == was.present
      && after.lastRunning == (after.Active() && after.running)
      && (!after.Active() || !was.running ==> after.viewerCount == 0)
      && (after.lastRunning != was.lastRunning ==>
            CameraStateChanged(View(after)) in t.log[|s.log|..] && View(after).running == after.lastRunning)
  {
    TickLogGrows(s, now, mtx, at);
    TickLogHolds(s.slots, now, s.stop, at, i);
    SlotSettles(s.slots[i], now, s.stop, at(i));
  }

  /** Exactly when a tick takes a camera's viewers away without telling anyone:
      when the publisher is found down with viewers, and the restart that the tick
      will or will not bring about leads back to the state that was last told. */
  lemma SilentResetExactly(s: CamSlot, now: int, stop: bool, a: Attempt)
    ensures TickSlot(s, now, stop, a).viewerCount != s.viewerCount && TickEvents(s, now, stop, a) == []
      <==> s.Active() && !s.running && s.viewerCount != 0
           && s.lastRunning == (!stop && now >= s.backoff.earliestNext && a.up)
  {
  }

  /** A run in which it happens: a viewer connects, the publisher crashes, and the
      next tick restarts it; the count falls from one to zero, and nothing is published. */
  lemma ViewersVanishSilently(db: KnownDb, o: Origin, now: int, mtx: Attempt, at: Attempts)
    requires |o.devices| == 1 && Boot(db, o).slots[0].cfg.enabled && o.at(0).up && o.mtx.up
    requires now >= o.at(0).at + 1000 && mtx.at >= now && at(0).up && forall i: nat :: at(i).at >= now
    ensures var steps := [ViewerHook("read", "webcam0"), Crash(0), Tick(now, mtx, at)];
      var before, after := Reached(db, o, steps[..2]), Reached(db, o, steps);
      && IsRun(db, o, steps) && |before.slots| == |after.slots| == 1
      && before.slots[0].viewerCount == 1 && after.slots[0].viewerCount == 0
      && after.log == before.log && after.outbox == before.outbox && after.slots[0].running
  {
    var read, crash, tick := ViewerHook("read", "webcam0"), Crash(0), Tick(now, mtx, at);
    BootedSlot(db, o);
    assert UpAlone(Boot(db, o), now, 0);
    hide Reached, IsRun, Next, Boot, UpAlone;
    ThreeSteps(db, o, read, crash, tick);
    FreeRun(db, o, [read, crash, tick]);
    ReadCounts(db, Boot(db, o), now);
    CrashAndTick(db, Next(db, Boot(db, o), read), now, mtx, at);
  }

  lemma ThreeSteps(db: KnownDb, o: Origin, a: Step, b: Step, c: Step)
    ensures Reached(db, o, [a, b, c][..2]) == Next(db, Next(db, Boot(db, o), a), b)
    ensures Reached(db, o, [a, b, c]) == Next(db, Next(db, Next(db, Boot(db, o), a), b), c)
  {
    var steps := [a, b, c];
    FirstStep(db, o, steps);
    hide Next, Boot, Reached;
    ReachedStep(db, o, steps, 1);
    ReachedStep(db, o, steps, 2);
    assert steps[..3] == steps;
  }

  lemma FirstStep(db: KnownDb, o: Origin, steps: seq<Step>)
    requires steps != []
    ensures Reached(db, o, steps[..1]) == Next(db, Boot(db, o), steps[0])
  {
    hide Next, Boot;
    ReachedStep(db, o, steps, 0);
    assert steps[..0] == [];
  }

  /** Steps that are enabled in every state make a run. */
  lemma FreeRun(db: KnownDb, o: Origin, steps: seq<Step>)
    requires forall s, k | 0 <= k < |steps| :: Enabled(s, steps[k])
    ensures IsRun(db, o, steps)
  {
    hide Reached, Enabled;
  }

  /** The only camera, up since the program started. */
  predicate UpAlone(s: State, now: int, viewers: int) {
    && |s.slots| == 1 && !s.stop && s.mtxRunning
    && s.slots[0].Active() && s.slots[0].running && s.slots[0].lastRunning && s.slots[0].viewerCount == viewers
    && s.slots[0].cfg.rtspPath == "/webcam0" && s.slots[0].backoff.earliestNext <= now
  }

  lemma BootedSlot(db: KnownDb, o: Origin)
    requires |o.devices| == 1 && Boot(db, o).slots[0].cfg.enabled && o.at(0).up && o.mtx.up
    ensures UpAlone(Boot(db, o), o.at(0).at + 1000, 0)
    ensures Boot(db, o).slots[0].backoff.earliestNext == o.at(0).at + 1000
    ensures Boot(db, o).outbox == [] && Boot(db, o).slots[0].cfg.friendlyName == o.devices[0].name
  {
    hide Load, PickDefault, RestartBackoff.Min;
    assert Path(0) == "/webcam0";
  }

  lemma ReadCounts(db: KnownDb, s: State, now: int)
    requires UpAlone(s, now, 0)
    ensures UpAlone(Next(db, s, ViewerHook("read", "webcam0")), now, 1)
  {
    assert "/webcam0"[1..] == "webcam0";
    hide View;
  }

  lemma CrashAndTick(db: KnownDb, s: State, now: int, mtx: Attempt, at: Attempts)
    requires UpAlone(s, now, 1) && at(0).up
    ensures var t := Next(db, s, Crash(0));
      var u := Next(db, t, Tick(now, mtx, at));
      && |t.slots| == |u.slots| == 1 && t.slots[0].viewerCount == 1
      && u.slots[0].viewerCount == 0 && u.slots[0].running && u.log == t.log && u.outbox == t.outbox
  {
    var t := Next(db, s, Crash(0));
    SilentResetExactly(t.slots[0], now, false, at(0));
    assert t.slots[..0] == [] && TickLog(t.slots, now, t.stop, at) == [];
    assert t.log + [] == t.log;
    hide View;
  }

  // ----- After the stop flag -----

  /** No child has been started between two states: a stop flag stays set, whatever
      runs was running, and no start was recorded. */
  predicate NoStart(s: State, t: State) {
    && (s.stop ==> t.stop)
    && |s.slots| <= |t.slots|
    && (forall i | 0 <= i < |t.slots| :: t.slots[i].running ==> i < |s.slots| && s.slots[i].running)
    && (forall i | 0 <= i < |t.slots| && t.slots[i].starts != [] ::
          i < |s.slots| && t.slots[i].starts == s.slots[i].starts)
    && (t.mtxRunning ==> s.mtxRunning) && t.mtxBackoff == s.mtxBackoff && t.mtxStarts == s.mtxStarts
  }

  lemma {:induction false} AppendWithoutStart(slots: seq<CamSlot>, known: set<string>, devices: seq<Device>,
      formats: Device -> Formats, db: KnownDb, settings: Settings, files: Files, at: Attempts)
    ensures var r := AppendSlots(slots, known, devices, formats, db, settings, files, true, at);
      slots <= r && forall i | |slots| <= i < |r| :: !r[i].running && r[i].starts == []
  {
    hide Resolve, AllocatedPath, Paths;
    if devices != [] {
      AppendWithoutStart(slots, known, devices[..|devices| - 1], formats, db, settings, files, at);
    }
  }

  lemma AnnounceWithoutStart(s: State, i: nat, t: CamSlot)
    requires i < |s.slots|
    requires t.running ==> s.slots[i].running
    requires t.starts != [] ==> t.starts == s.slots[i].starts
    ensures NoStart(s, Announce(s, i, t))
  {
  }

  lemma RestartWithoutStart(s: State, name: string, a: Attempt)
    requires s.stop
    ensures NoStart(s, DoRestartCamera(s, name, a))
  {
    var i := FindName(s.slots, name);
    if i < |s.slots| { AnnounceWithoutStart(s, i, Rebuild(s.slots[i])); }
  }

  lemma SetModeWithoutStart(s: State, name: string, mode: string, w: int, h: int, f: int, writable: bool, a: Attempt)
    requires s.stop
    ensures NoStart(s, DoSetMode(s, name, mode, w, h, f, writable, a))
  {
    var i := FindName(s.slots, name);
    if i < |s.slots| {
      var t := s.slots[i].(cfg := Reconfigured(s.slots[i].cfg, ModeUpdate(mode, w, h, f)));
      AnnounceWithoutStart(s, i, Rebuild(t));
    }
  }

  lemma SwitchWithoutStart(s: State, name: string, enabled: Option<bool>, writable: bool, a: Attempt)
    requires s.stop
    ensures NoStart(s, DoSetStreamEnabled(s, name, enabled, writable, a))
  {
    var i := FindName(s.slots, name);
    if i < |s.slots| && enabled.Some? { AnnounceWithoutStart(s, i, Switched(s.slots[i], enabled.value, true, a)); }
  }

  lemma HookWithoutStart(s: State, kind: string, path: string)
    ensures NoStart(s, DoViewerHook(s, kind, path))
  {
    hide View, FindPath;
  }

  lemma TickWithoutStart(s: State, now: int, mtx: Attempt, at: Attempts)
    requires s.stop
    ensures NoStart(s, DoTick(s, now, mtx, at))
  {
  }

  lemma PresenceWithoutStart(s: State, current: seq<Device>, at: Attempts)
    requires s.stop
    ensures NoStart(s, DoPresenceDiff(s, current, at))
  {
  }

  lemma AppendNewWithoutStart(s: State, db: KnownDb, devices: seq<Device>, formats: Device -> Formats,
                              listChanged: bool, at: Attempts)
    requires s.stop
    ensures NoStart(s, DoAppendNew(s, db, devices, formats, listChanged, at))
  {
    AppendWithoutStart(s.slots, Names(s.slots), devices, formats, db, s.settings, s.files, at);
  }

  lemma CredentialsWithoutStart(s: State, user: string, pass: string, saved: bool, written: bool, a: Attempt)
    requires s.stop
    ensures NoStart(s, DoSetViewerCredentials(s, user, pass, saved, written, a))
  {
    hide Views;
  }

  /** Once the stop flag is set it stays set, and no step starts a child. */
  lemma NothingStartsAfterStop(db: KnownDb, s: State, step: Step)
    requires s.stop
    ensures Next(db, s, step).stop && NoStart(s, Next(db, s, step))
  {
    hide DoTick, DoRestartCamera, DoSetMode, DoSetStreamEnabled, DoViewerHook, DoPresenceDiff, DoAppendNew,
      DoSetViewerCredentials;
    match step
    case Tick(now, mtx, at) => TickWithoutStart(s, now, mtx, at);
    case RestartCamera(name, a) => RestartWithoutStart(s, name, a);
    case SetMode(name, mode, w, h, f, writable, a) => SetModeWithoutStart(s, name, mode, w, h, f, writable, a);
    case SetStreamEnabled(name, enabled, writable, a) => SwitchWithoutStart(s, name, enabled, writable, a);
    case SetViewerCredentials(user, pass, saved, written, a) =>
      CredentialsWithoutStart(s, user, pass, saved, written, a);
    case ViewerHook(kind, path) => HookWithoutStart(s, kind, path);
    case PresenceDiff(current, at) => PresenceWithoutStart(s, current, at);
    case AppendNew(devices, formats, listChanged, at) =>
      AppendNewWithoutStart(s, db, devices, formats, listChanged, at);
    case _ =>
  }

  /** No publisher runs, and MediaMTX does not. */
  predicate AllDown(s: State) {
    !s.mtxRunning && forall i | 0 <= i < |s.slots| :: !s.slots[i].running
  }

  lemma SweepStops(db: KnownDb, s: State, step: Step)
    requires step.FinalSweep?
    ensures Next(db, s, step).stop == s.stop && AllDown(Next(db, s, step))
  {
  }

  lemma NoStartKeepsDown(s: State, t: State)
    requires NoStart(s, t) && AllDown(s)
    ensures AllDown(t)
  {
  }

  /** In every run, from the final sweep on no publisher runs and MediaMTX does
      not, whatever steps come after it. */
  lemma {:induction false} SweepLeavesNothing(db: KnownDb, o: Origin, steps: seq<Step>, k: nat, m: nat)
    requires k < m <= |steps| && steps[k].FinalSweep? && Enabled(Reached(db, o, steps[..k]), steps[k])
    ensures Reached(db, o, steps[..m]).stop && AllDown(Reached(db, o, steps[..m]))
    decreases m
  {
    hide Reached, Next, AllDown, NoStart;
    var s := Reached(db, o, steps[..m - 1]);
    ReachedStep(db, o, steps, m - 1);
    if k == m - 1 {
      SweepStops(db, s, steps[k]);
    } else {
      SweepLeavesNothing(db, o, steps, k, m - 1);
      NothingStartsAfterStop(db, s, steps[m - 1]);
      NoStartKeepsDown(s, Next(db, s, steps[m - 1]));
    }
  }
}
