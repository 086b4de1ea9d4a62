/**
 The configuration in memory against the override files on disk: whatever the
 user set, the next start of the program finds again.
 */
module SupervisorRecovery {
  import opened Wrappers
  import opened Folds
  import opened CameraConfig
  import opened CameraFormats
  import opened OverrideFile
  import opened PathAlloc
  import opened Supervisor
  import opened SupervisorRuns
  import Decimal
  import Lines

  /** A fresh resolution of the camera's configuration from the files would agree:
      in size and frame rate, in the mode up to legacy modes, and in the enabled
      flag that a user chose, which is the flag that the file holds. */
  predicate Recovers(slot: CamSlot, db: KnownDb, settings: Settings, files: Files) {
    var r := Resolve(slot.cfg, slot.vidPid, slot.formats, db, settings, files);
    && r.width == slot.cfg.width && r.height == slot.cfg.height && r.fps == slot.cfg.fps
    && r.mode == Coerce(slot.cfg.mode)
    && Load(files, slot.cfg.friendlyName).GetOr(NOTHING).enabled == slot.chosen
    && (slot.chosen.Some? ==> r.enabled == slot.cfg.enabled == slot.chosen.value)
  }

  predicate AllRecover(db: KnownDb, s: State) {
    forall i | 0 <= i < |s.slots| :: Recovers(s.slots[i], db, s.settings, s.files)
  }

  /** Every camera has its own override file, and a name on one line. */
  predicate WellNamed(slots: seq<CamSlot>) {
    && (forall i | 0 <= i < |slots| :: Lines.NewlineFree(slots[i].cfg.friendlyName))
    && (forall i, j | 0 <= i < j < |slots| ::
          FileName(slots[i].cfg.friendlyName) != FileName(slots[j].cfg.friendlyName))
  }

  /** Saves succeed, and the numbers are what the request parser yields. */
  predicate Saves(step: Step) {
    && (step.SetMode? ==> step.writable && Decimal.IsInt32(step.width) && Decimal.IsInt32(step.height)
                          && Decimal.IsInt32(step.fps))
    && (step.SetStreamEnabled? ==> step.writable)
  }

  /** A slot after an update of its configuration. */
  function Changed(slot: CamSlot, u: CameraOverride): CamSlot {
    slot.(cfg := Reconfigured(slot.cfg, u), chosen := u.enabled.Else(slot.chosen))
  }

  /** A slot's own update, saved, keeps it recoverable. */
  lemma SaveRecovers(slot: CamSlot, db: KnownDb, settings: Settings, files: Files, u: CameraOverride)
    requires Recovers(slot, db, settings, files)
    requires u.Valid() && Lines.NewlineFree(slot.cfg.friendlyName)
    requires u.mode.Some? || u == NOTHING.(enabled := u.enabled)
    ensures Recovers(Changed(slot, u), db, settings, Saved(files, slot.cfg.friendlyName, u))
  {
    LoadSaved(files, slot.cfg.friendlyName, u);
  }

  lemma SaveKeepsOthers(slot: CamSlot, db: KnownDb, settings: Settings, files: Files, name: string, u: CameraOverride)
    requires Recovers(slot, db, settings, files)
    requires u.Valid() && Lines.NewlineFree(name) && FileName(slot.cfg.friendlyName) != FileName(name)
    ensures Recovers(slot, db, settings, Saved(files, name, u))
  {
    LoadSaved(files, name, u);
  }

  /** The fields that Recovers looks at. */
  predicate SameSettings(a: CamSlot, b: CamSlot) {
    a.cfg == b.cfg && a.vidPid == b.vidPid && a.formats == b.formats && a.chosen == b.chosen
  }

  /** The defaults in the settings do not matter: an enabled flag is compared only
      where the file holds one. */
  lemma SettingsSuffice(a: CamSlot, b: CamSlot, db: KnownDb, settings: Settings, other: Settings, files: Files)
    requires Recovers(a, db, settings, files) && SameSettings(b, a)
    ensures Recovers(b, db, other, files)
  {
  }

  lemma UpdateRecovers(db: KnownDb, s: State, i: nat, t: CamSlot, u: CameraOverride)
    requires AllRecover(db, s) && WellNamed(s.slots) && i < |s.slots|
    requires u.Valid() && (u.mode.Some? || u == NOTHING.(enabled := u.enabled))
    requires SameSettings(t, Changed(s.slots[i], u))
    ensures AllRecover(db, s.(slots := s.slots[i := t], files := Saved(s.files, s.slots[i].cfg.friendlyName, u)))
  {
    hide Recovers, Saved, Reconfigured, FileName, Lines.NewlineFree;
    var name := s.slots[i].cfg.friendlyName;
    SaveRecovers(s.slots[i], db, s.settings, s.files, u);
    SettingsSuffice(Changed(s.slots[i], u), t, db, s.settings, s.settings, Saved(s.files, name, u));
    forall j | 0 <= j < |s.slots| && j != i
      ensures Recovers(s.slots[j], db, s.settings, Saved(s.files, name, u))
    {
      SaveKeepsOthers(s.slots[j], db, s.settings, s.files, name, u);
    }
  }

  lemma LaunchRecovers(d: Device, path: string, formats: Formats, db: KnownDb, settings: Settings, files: Files,
      stop: bool, a: Attempt)
    ensures Recovers(Launched(NewSlot(d, path, formats, db, settings, files), stop, a), db, settings, files)
  {
  }

  lemma {:induction false} AppendRecovers(slots: seq<CamSlot>, known: set<string>, devices: seq<Device>,
      formats: Device -> Formats, db: KnownDb, settings: Settings, files: Files, stop: bool, at: Attempts)
    requires forall i | 0 <= i < |slots| :: Recovers(slots[i], db, settings, files)
    ensures var r := AppendSlots(slots, known, devices, formats, db, settings, files, stop, at);
      slots <= r && forall i | 0 <= i < |r| :: Recovers(r[i], db, settings, files)
  {
    hide Recovers, NewSlot, Launched, AllocatedPath, Paths;
    if devices != [] {
      var n := |devices| - 1;
      var d, front := devices[n], AppendSlots(slots, known, devices[..n], formats, db, settings, files, stop, at);
      LaunchRecovers(d, AllocatedPath(Paths(front)), formats(d), db, settings, files, stop, at(|front|));
      AppendRecovers(slots, known, devices[..|devices| - 1], formats, db, settings, files, stop, at);
    }
  }

  lemma SetModeRecovers(db: KnownDb, s: State, step: Step)
    requires AllRecover(db, s) && WellNamed(s.slots) && Saves(step) && step.SetMode?
    ensures AllRecover(db, Next(db, s, step))
  {
    hide Recovers, Saved, View, FileName, Lines.NewlineFree, FindName, ModeFromString, Reconfigured;
    var i := FindName(s.slots, step.name);
    if i < |s.slots| && step.name != "" && ModeFromString(step.mode) != Unknown {
      var u := ModeUpdate(step.mode, step.width, step.height, step.fps);
      var t := s.slots[i].(cfg := Reconfigured(s.slots[i].cfg, u));
      UpdateRecovers(db, s, i, Synced(Restarted(t, s.stop, step.a)), u);
    }
  }

  lemma SwitchedSettings(slot: CamSlot, want: bool, stop: bool, a: Attempt)
    ensures SameSettings(Synced(Switched(slot, want, stop, a)), Changed(slot, EnabledUpdate(want)))
  {
  }

  lemma SetStreamEnabledRecovers(db: KnownDb, s: State, step: Step)
    requires AllRecover(db, s) && WellNamed(s.slots) && Saves(step) && step.SetStreamEnabled?
    ensures AllRecover(db, Next(db, s, step))
  {
    hide Recovers, Saved, View, Switched, Reconfigured, FileName, Lines.NewlineFree, FindName;
    var i := FindName(s.slots, step.name);
    if i < |s.slots| && step.name != "" && step.enabled.Some? {
      var want := step.enabled.value;
      SwitchedSettings(s.slots[i], want, s.stop, step.a);
      UpdateRecovers(db, s, i, Synced(Switched(s.slots[i], want, s.stop, step.a)), EnabledUpdate(want));
    }
  }

  predicate KeepsSettings(s: State, t: State) {
    && t.files == s.files && |t.slots| == |s.slots|
    && forall i | 0 <= i < |s.slots| :: SameSettings(t.slots[i], s.slots[i])
  }

  lemma TickKeepsSettings(s: State, now: int, mtx: Attempt, at: Attempts)
    ensures KeepsSettings(s, DoTick(s, now, mtx, at))
  {
  }

  lemma PresenceKeepsSettings(s: State, current: seq<Device>, at: Attempts)
    ensures KeepsSettings(s, DoPresenceDiff(s, current, at))
  {
  }

  lemma HookKeepsSettings(s: State, kind: string, path: string)
    ensures KeepsSettings(s, DoViewerHook(s, kind, path))
  {
    hide FindPath, View;
  }

  lemma RestartKeepsSettings(s: State, name: string, a: Attempt)
    ensures KeepsSettings(s, DoRestartCamera(s, name, a))
  {
    hide FindName, View;
  }

  /** Every other step leaves the files and the settings of all cameras alone. */
  lemma OtherStepsKeepSettings(db: KnownDb, s: State, step: Step)
    requires !step.SetMode? && !step.SetStreamEnabled? && !step.AppendNew?
    ensures KeepsSettings(s, Next(db, s, step))
  {
    hide DoTick, DoPresenceDiff, DoViewerHook, DoRestartCamera, DoSetMode, DoSetStreamEnabled, DoAppendNew, View;
    match step
    case Tick(now, mtx, at) => TickKeepsSettings(s, now, mtx, at);
    case PresenceDiff(current, at) => PresenceKeepsSettings(s, current, at);
    case ViewerHook(kind, path) => HookKeepsSettings(s, kind, path);
    case RestartCamera(name, a) => RestartKeepsSettings(s, name, a);
    case _ =>
  }

  lemma KeptRecovers(db: KnownDb, s: State, t: State)
    requires AllRecover(db, s) && KeepsSettings(s, t)
    ensures AllRecover(db, t)
  {
    forall i | 0 <= i < |s.slots| ensures Recovers(t.slots[i], db, t.settings, t.files) {
      SettingsSuffice(s.slots[i], t.slots[i], db, s.settings, t.settings, s.files);
    }
  }

  lemma AppendNewRecovers(db: KnownDb, s: State, step: Step)
    requires AllRecover(db, s) && step.AppendNew?
    ensures AllRecover(db, Next(db, s, step))
  {
    hide Recovers;
    AppendRecovers(s.slots, Names(s.slots), step.devices, step.formats, db, s.settings, s.files, s.stop, step.at);
  }

  lemma StepRecovers(db: KnownDb, s: State, step: Step)
    requires AllRecover(db, s) && WellNamed(s.slots) && Saves(step)
    ensures AllRecover(db, Next(db, s, step))
  {
    hide *;
    if step.SetMode? {
      SetModeRecovers(db, s, step);
    } else if step.SetStreamEnabled? {
      SetStreamEnabledRecovers(db, s, step);
    } else if step.AppendNew? {
      AppendNewRecovers(db, s, step);
    } else {
      OtherStepsKeepSettings(db, s, step);
      KeptRecovers(db, s, Next(db, s, step));
    }
  }

  /** The second list continues the first, camera by camera. */
  predicate KeepsNames(a: seq<CamSlot>, b: seq<CamSlot>) {
    |a| <= |b| && forall i | 0 <= i < |a| :: b[i].cfg.friendlyName == a[i].cfg.friendlyName
  }

  lemma SetModeKeepsNames(db: KnownDb, s: State, step: Step)
    requires step.SetMode?
    ensures KeepsNames(s.slots, Next(db, s, step).slots)
  {
    hide Saved, ModeFromString, View, FindName;
  }

  lemma SwitchKeepsNames(db: KnownDb, s: State, step: Step)
    requires step.SetStreamEnabled?
    ensures KeepsNames(s.slots, Next(db, s, step).slots)
  {
    hide Saved, View, FindName, Switched, Synced;
    var i := FindName(s.slots, step.name);
    if i < |s.slots| && step.enabled.Some? {
      SwitchedSettings(s.slots[i], step.enabled.value, s.stop, step.a);
    }
  }

  lemma AppendKeepsNames(db: KnownDb, s: State, step: Step)
    requires step.AppendNew?
    ensures KeepsNames(s.slots, Next(db, s, step).slots)
  {
    hide AppendSlots, Names, Views;
    AppendKeepsFront(s.slots, Names(s.slots), step.devices, step.formats, db, s.settings, s.files, s.stop, step.at);
  }

  lemma KeptNames(s: State, t: State)
    requires KeepsSettings(s, t)
    ensures KeepsNames(s.slots, t.slots)
  {
  }

  /** Cameras keep their names, and only new ones are added. */
  lemma NamesPersist(db: KnownDb, s: State, step: Step)
    ensures KeepsNames(s.slots, Next(db, s, step).slots)
  {
    hide *;
    if step.SetMode? {
      SetModeKeepsNames(db, s, step);
    } else if step.SetStreamEnabled? {
      SwitchKeepsNames(db, s, step);
    } else if step.AppendNew? {
      AppendKeepsNames(db, s, step);
    } else {
      OtherStepsKeepSettings(db, s, step);
      KeptNames(s, Next(db, s, step));
    }
  }

  lemma {:induction false} AppendKeepsFront(slots: seq<CamSlot>, known: set<string>, devices: seq<Device>,
      formats: Device -> Formats, db: KnownDb, settings: Settings, files: Files, stop: bool, at: Attempts)
    ensures slots <= AppendSlots(slots, known, devices, formats, db, settings, files, stop, at)
  {
    hide Launched, NewSlot, AllocatedPath, Paths;
    if devices != [] {
      AppendKeepsFront(slots, known, devices[..|devices| - 1], formats, db, settings, files, stop, at);
    }
  }

  lemma WellNamedBefore(a: seq<CamSlot>, b: seq<CamSlot>)
    requires KeepsNames(a, b) && WellNamed(b)
    ensures WellNamed(a)
  {
    hide Lines.NewlineFree, FileName;
  }

  lemma BootRecovers(db: KnownDb, o: Origin)
    ensures AllRecover(db, Boot(db, o))
  {
  }

  /** On every run whose saves succeed, with one override file per camera, every
      camera's configuration is what the files on disk give back. */
  lemma {:induction false} RunsRecover(db: KnownDb, o: Origin, steps: seq<Step>, k: nat)
    requires k <= |steps| && WellNamed(Reached(db, o, steps[..k]).slots)
    requires forall j | 0 <= j < k :: Saves(steps[j])
    ensures AllRecover(db, Reached(db, o, steps[..k]))
  {
    hide Next, AllRecover, WellNamed, Saves, Boot;
    if k == 0 {
      BootRecovers(db, o);
    } else {
      var s := Reached(db, o, steps[..k - 1]);
      ReachedStep(db, o, steps, k - 1);
      NamesPersist(db, s, steps[k - 1]);
      WellNamedBefore(s.slots, Reached(db, o, steps[..k]).slots);
      RunsRecover(db, o, steps, k - 1);
      StepRecovers(db, s, steps[k - 1]);
    }
  }

  /** A later start of the program finds the files as they are now, and the slot's
      camera as its device number j, with the same formats. */
  predicate FindsAgain(again: Origin, files: Files, slot: CamSlot, j: nat) {
    && again.files == files && j < |again.devices|
    && again.devices[j] == Device(slot.cfg.friendlyName, slot.vidPid) && again.formats(j) == slot.formats
  }

  /** The user's settings survive a restart of the program: a camera that the next
      start finds, at whatever place and among whatever others, comes up with the
      same size and frame rate, the mode up to legacy modes, and any enabled flag
      that was chosen. */
  lemma SettingsSurviveRestart(db: KnownDb, o: Origin, steps: seq<Step>, again: Origin, i: nat, j: nat)
    requires var s := Reached(db, o, steps);
      WellNamed(s.slots) && i < |s.slots| && FindsAgain(again, s.files, s.slots[i], j)
    requires forall k | 0 <= k < |steps| :: Saves(steps[k])
    ensures var was, after := Reached(db, o, steps).slots[i].cfg, Boot(db, again).slots[j].cfg;
      && after.width == was.width && after.height == was.height && after.fps == was.fps && after.mode == Coerce(was.mode)
      && (Reached(db, o, steps).slots[i].chosen.Some? ==>
            after.enabled == was.enabled == Reached(db, o, steps).slots[i].chosen.value)
  {
    assert steps[..|steps|] == steps;
    RunsRecover(db, o, steps, |steps|);
    assert Recovers(Reached(db, o, steps).slots[i], db, Reached(db, o, steps).settings, again.files);
  }

  lemma SetKeepsChosen(db: KnownDb, s: State, step: Step, i: nat)
    requires i < |s.slots| && (step.SetMode? || (step.SetStreamEnabled? && !Switches(step, s.slots[i].cfg.friendlyName)))
    ensures i < |Next(db, s, step).slots| && Next(db, s, step).slots[i].chosen == s.slots[i].chosen
  {
    hide Saved, ModeFromString, View, FindName;
  }

  /** No step but a switch of the camera itself changes what was chosen for it. */
  lemma ChosenPersists(db: KnownDb, s: State, step: Step, i: nat)
    requires i < |s.slots| && !Switches(step, s.slots[i].cfg.friendlyName)
    ensures i < |Next(db, s, step).slots| && Next(db, s, step).slots[i].chosen == s.slots[i].chosen
  {
    if step.AppendNew? {
      hide AppendSlots, Names, Views;
      AppendKeepsFront(s.slots, Names(s.slots), step.devices, step.formats, db, s.settings, s.files, s.stop, step.at);
    } else if step.SetMode? || step.SetStreamEnabled? {
      SetKeepsChosen(db, s, step, i);
    } else {
      hide Next;
      OtherStepsKeepSettings(db, s, step);
    }
  }

  /** A request that sets the camera's enabled flag. */
  predicate Switches(step: Step, name: string) {
    step.SetStreamEnabled? && step.name == name != "" && step.enabled.Some?
  }

  /** A switch sets what was chosen for its camera. */
  lemma SwitchChooses(db: KnownDb, s: State, step: Step)
    requires step.SetStreamEnabled? && Switches(step, step.name) && FindName(s.slots, step.name) < |s.slots|
    ensures var i, t := FindName(s.slots, step.name), Next(db, s, step);
      |t.slots| == |s.slots| && t.slots[i].chosen == step.enabled && t.slots[i].cfg.friendlyName == step.name
  {
    hide Saved, View, FindName;
  }

  /** The enabled flag at the next start is the one chosen, or else the default
      that the settings hold then; it depends on nothing but the name and the files. */
  lemma FlagAtNextStart(db: KnownDb, o: Origin, steps: seq<Step>, again: Origin, i: nat, j: nat)
    requires var s := Reached(db, o, steps);
      && WellNamed(s.slots) && i < |s.slots| && again.files == s.files
      && j < |again.devices| && again.devices[j].name == s.slots[i].cfg.friendlyName
    requires forall k | 0 <= k < |steps| :: Saves(steps[k])
    ensures Boot(db, again).slots[j].cfg.enabled
         == Reached(db, o, steps).slots[i].chosen.GetOr(again.settings.defaultEnabled)
  {
    assert steps[..|steps|] == steps;
    RunsRecover(db, o, steps, |steps|);
    assert Recovers(Reached(db, o, steps).slots[i], db, Reached(db, o, steps).settings, again.files);
  }

  // ----- Requests whose save failed -----

  /** Exactly when the flag of a switch whose save failed is found again by the next
      start: when the flag chosen before, or else the default at that start, is the same. */
  lemma LostSwitchExactly(db: KnownDb, o: Origin, steps: seq<Step>, name: string, want: bool, a: Attempt,
                          again: Origin, j: nat)
    requires var s := Reached(db, o, steps);
      && WellNamed(s.slots) && name != "" && FindName(s.slots, name) < |s.slots|
      && again.files == DoSetStreamEnabled(s, name, Some(want), false, a).files
      && j < |again.devices| && again.devices[j].name == name
    requires forall k | 0 <= k < |steps| :: Saves(steps[k])
    ensures var s := Reached(db, o, steps);
      Boot(db, again).slots[j].cfg.enabled
        == DoSetStreamEnabled(s, name, Some(want), false, a).slots[FindName(s.slots, name)].cfg.enabled
      <==> s.slots[FindName(s.slots, name)].chosen.GetOr(again.settings.defaultEnabled) == want
  {
    hide Reached, FindName, WellNamed, Saves, View, Resolve;
    FlagAtNextStart(db, o, steps, again, FindName(Reached(db, o, steps).slots, name), j);
  }

  /** A camera without an override file. */
  predicate Unsaved(o: Origin) {
    |o.devices| == 1 && o.devices[0].name != "" && FileName(o.devices[0].name) !in o.files
  }

  /** A switch that is lost: the only camera, enabled by default, is disabled while
      its file cannot be written, and the next start enables it again. */
  lemma SwitchCanBeLost(db: KnownDb, o: Origin, a: Attempt)
    requires Unsaved(o) && o.settings.defaultEnabled
    ensures var steps := [SetStreamEnabled(o.devices[0].name, Some(false), false, a)];
      var s := Reached(db, o, steps);
      && IsRun(db, o, steps) && s.files == o.files && |s.slots| == 1
      && !s.slots[0].cfg.enabled && Boot(db, o.(files := s.files)).slots[0].cfg.enabled
  {
    var steps := [SetStreamEnabled(o.devices[0].name, Some(false), false, a)];
    assert steps[..0] == [] && steps[..1] == steps;
    hide FileName, View, PickDefault;
    ReachedStep(db, o, steps, 0);
  }

  /** Exactly when a mode change whose save failed is still found again: when the
      values asked for are those that the files give already. */
  lemma LostSaveExactly(slot: CamSlot, db: KnownDb, settings: Settings, files: Files, u: CameraOverride)
    requires Recovers(slot, db, settings, files) && u.mode.Some? && u.enabled.None?
    ensures Recovers(slot.(cfg := Reconfigured(slot.cfg, u)), db, settings, files)
      <==> Coerce(u.mode.value) == Coerce(slot.cfg.mode) && u.width.GetOr(slot.cfg.width) == slot.cfg.width
           && u.height.GetOr(slot.cfg.height) == slot.cfg.height && u.fps.GetOr(slot.cfg.fps) == slot.cfg.fps
  {
  }

  lemma DefaultMode(db: KnownDb, o: Origin)
    requires Unsaved(o) && db == map[] && o.formats(0) == []
    ensures Boot(db, o).slots[0].cfg.mode == TranscodeMjpegToH264
  {
    hide FileName;
  }

  /** A mode change that is lost: the only camera is set to raw input while its file
      cannot be written, and the next start is back at Motion JPEG. */
  lemma ModeChangeCanBeLost(db: KnownDb, o: Origin, a: Attempt)
    requires Unsaved(o) && db == map[] && o.formats(0) == []
    ensures var steps := [SetMode(o.devices[0].name, "transcode_raw_to_h264", 0, 0, 0, false, a)];
      var s := Reached(db, o, steps);
      && IsRun(db, o, steps) && s.files == o.files && |s.slots| == 1
      && s.slots[0].cfg.mode == TranscodeRawToH264
      && Boot(db, o.(files := s.files)).slots[0].cfg.mode == TranscodeMjpegToH264
  {
    var steps := [SetMode(o.devices[0].name, "transcode_raw_to_h264", 0, 0, 0, false, a)];
    assert steps[..0] == [] && steps[..1] == steps;
    OnlySlot(db, o);
    assert o.(files := Boot(db, o).files) == o;
    hide FileName, ModeFromString, Next, Boot, FindName;
    ReachedStep(db, o, steps, 0);
    DefaultMode(db, o);
    ModeNames(TranscodeRawToH264, "");
    UnsavedMode(db, Boot(db, o), steps[0]);
  }

  lemma OnlySlot(db: KnownDb, o: Origin)
    requires Unsaved(o)
    ensures Boot(db, o).files == o.files && FindName(Boot(db, o).slots, o.devices[0].name) == 0
  {
    hide FileName, PickDefault;
  }

  lemma UnsavedMode(db: KnownDb, s: State, step: Step)
    requires step.SetMode? && !step.writable && step.name != "" && ModeFromString(step.mode) != Unknown
    requires FindName(s.slots, step.name) < |s.slots|
    ensures var t, i := Next(db, s, step), FindName(s.slots, step.name);
      && t.files == s.files && |t.slots| == |s.slots|
      && t.slots[i].cfg == Reconfigured(s.slots[i].cfg, ModeUpdate(step.mode, step.width, step.height, step.fps))
  {
    hide View, ModeFromString, FindName;
  }

  /** Exactly when all that a mode change asked for, whose save failed, is found
      again by the next start: when it asked for nothing new, up to legacy modes. */
  lemma LostModeExactly(db: KnownDb, o: Origin, steps: seq<Step>, lost: Step, again: Origin, j: nat)
    requires lost.SetMode? && !lost.writable && lost.name != "" && ModeFromString(lost.mode) != Unknown
    requires var s := Reached(db, o, steps);
      && WellNamed(s.slots) && FindName(s.slots, lost.name) < |s.slots|
      && FindsAgain(again, Next(db, s, lost).files, s.slots[FindName(s.slots, lost.name)], j)
    requires forall k | 0 <= k < |steps| :: Saves(steps[k])
    ensures var was, after := Reached(db, o, steps).slots[FindName(Reached(db, o, steps).slots, lost.name)].cfg,
                              Boot(db, again).slots[j].cfg;
      (after.mode == Coerce(ModeFromString(lost.mode)) && after.width == Given(lost.width).GetOr(was.width)
         && after.height == Given(lost.height).GetOr(was.height) && after.fps == Given(lost.fps).GetOr(was.fps))
      <==> (Coerce(ModeFromString(lost.mode)) == Coerce(was.mode) && (lost.width > 0 ==> lost.width == was.width)
         && (lost.height > 0 ==> lost.height == was.height) && (lost.fps > 0 ==> lost.fps == was.fps))
  {
    hide Reached, FindName, WellNamed, Saves, Next, Resolve, ModeFromString;
    UnsavedMode(db, Reached(db, o, steps), lost);
    SettingsSurviveRestart(db, o, steps, again, FindName(Reached(db, o, steps).slots, lost.name), j);
  }
}
