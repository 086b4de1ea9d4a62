/** Runs in which saves fail at will: what the override files hold, and what the next
    start makes of it. */
module SupervisorSaves {
  import opened Wrappers
  import opened Folds
  import opened CameraConfig
  import CameraFormats
  import opened OverrideFile
  import opened Supervisor
  import opened SupervisorRuns
  import opened SupervisorRecovery
  import opened SupervisorEffects
  import Decimal
  import Lines

  /** The numbers of a mode change are what the request parser yields. */
  predicate Numbers(step: Step) {
    step.SetMode? ==> Decimal.IsInt32(step.width) && Decimal.IsInt32(step.height) && Decimal.IsInt32(step.fps)
  }

  /** What a request asks to be stored for the camera it names, if it is accepted. */
  function Asked(s: State, step: Step): Option<CameraOverride> {
    match step
    case SetMode(name, mode, w, h, f, _, _) =>
      if name != "" && ModeFromString(mode) != Unknown && FindName(s.slots, name) < |s.slots|
      then Some(ModeUpdate(mode, w, h, f)) else None
    case SetStreamEnabled(name, enabled, _, _) =>
      if name != "" && enabled.Some? && FindName(s.slots, name) < |s.slots|
      then Some(EnabledUpdate(enabled.value)) else None
    case _ => None
  }

  /** What a step stores for this camera: what it asks, if the file can be written. */
  function SavedBy(s: State, step: Step, name: string): Option<CameraOverride> {
    if (step.SetMode? || step.SetStreamEnabled?) && step.name == name && step.writable then Asked(s, step) else None
  }

  /** The updates that a run stores for this camera. */
  function SavedUpdates(db: KnownDb, o: Origin, steps: seq<Step>, name: string): seq<CameraOverride> {
    if steps == [] then []
    else
      var n := |steps| - 1;
      var u := SavedBy(Reached(db, o, steps[..n]), steps[n], name);
      SavedUpdates(db, o, steps[..n], name) + if u.Some? then [u.value] else []
  }

  predicate HasCamera(slots: seq<CamSlot>, name: string) {
    exists i | 0 <= i < |slots| :: slots[i].cfg.friendlyName == name
  }

  /** All cameras of a run so far are among these, one of which has this name. */
  predicate Within(slots: seq<CamSlot>, all: seq<CamSlot>, name: string) {
    KeepsNames(slots, all) && WellNamed(all) && HasCamera(all, name)
  }

  // ----- One step -----

  lemma AskedIsValid(s: State, step: Step)
    requires Numbers(step) && Asked(s, step).Some?
    ensures Asked(s, step).value.Valid()
  {
    hide FindName, ModeFromString;
  }

  function Above0(n: int): Option<int> {
    if n <= 0 then None else Some(n)
  }

  /** A mode change of a known camera asks for its mode and its numbers above zero, a
      switch for its flag, and no other step asks for anything. */
  lemma AskedIs(s: State, step: Step, i: nat)
    ensures step.SetMode? && Target(s, step.name, i) && step.mode in MODES ==>
      Asked(s, step) == Some(CameraOverride(Some(ModeFromString(step.mode)), Above0(step.width), Above0(step.height),
                                            Above0(step.fps), None))
    ensures step.SetStreamEnabled? && Target(s, step.name, i) && step.enabled.Some? ==>
      Asked(s, step) == Some(CameraOverride(None, None, None, None, step.enabled))
    ensures step.SetMode? && (NoTarget(s, step.name) || step.mode !in MODES) ==> Asked(s, step).None?
    ensures step.SetStreamEnabled? && (NoTarget(s, step.name) || step.enabled.None?) ==> Asked(s, step).None?
    ensures !step.SetMode? && !step.SetStreamEnabled? ==> Asked(s, step).None?
  {
    if step.SetMode? || step.SetStreamEnabled? {
      if Target(s, step.name, i) { TargetIsFound(s, step.name, i); }
      if NoTarget(s, step.name) { NoneIsFound(s, step.name); }
    }
    if step.SetMode? { ModesAre(step.mode); }
    hide FindName, ModeFromString, Target, NoTarget;
  }

  /** A request stores what it asks, or leaves all files alone. */
  lemma RequestFiles(db: KnownDb, s: State, step: Step)
    requires step.SetMode? || step.SetStreamEnabled?
    ensures Next(db, s, step).files
         == if step.writable && Asked(s, step).Some? then Saved(s.files, step.name, Asked(s, step).value) else s.files
  {
    hide FindName, ModeFromString, View, Restarted, Switched, Saved;
  }

  lemma OtherFiles(db: KnownDb, s: State, step: Step)
    requires !step.SetMode? && !step.SetStreamEnabled?
    ensures Next(db, s, step).files == s.files
  {
    if !step.AppendNew? {
      hide Next;
      OtherStepsKeepSettings(db, s, step);
    }
  }

  lemma AskedIsKnown(s: State, step: Step, all: seq<CamSlot>)
    requires (step.SetMode? || step.SetStreamEnabled?) && Asked(s, step).Some? && KeepsNames(s.slots, all)
    ensures HasCamera(all, step.name)
  {
    hide ModeFromString;
    assert all[FindName(s.slots, step.name)].cfg.friendlyName == step.name;
  }

  lemma NamesDiffer(slots: seq<CamSlot>, a: string, b: string)
    requires WellNamed(slots) && HasCamera(slots, a) && HasCamera(slots, b)
    ensures Lines.NewlineFree(a) && (a != b ==> FileName(a) != FileName(b))
  {
    hide FileName, Lines.NewlineFree;
    var i, j :| 0 <= i < |slots| && 0 <= j < |slots| && slots[i].cfg.friendlyName == a && slots[j].cfg.friendlyName == b;
  }

  /** What a step leaves in the camera's file. */
  lemma StepSaves(db: KnownDb, s: State, step: Step, name: string, all: seq<CamSlot>)
    requires Within(s.slots, all, name) && Numbers(step)
    ensures var u, after := SavedBy(s, step, name), Load(Next(db, s, step).files, name);
      if u.Some? then u.value.Valid() && after == Some(u.value.Over(Load(s.files, name).GetOr(NOTHING)))
      else after == Load(s.files, name)
  {
    hide Next, Load, Saved, FindName, WellNamed, HasCamera, KeepsNames, FileName;
    if (step.SetMode? || step.SetStreamEnabled?) && Asked(s, step).Some? {
      RequestFiles(db, s, step);
      AskedIsValid(s, step);
      AskedIsKnown(s, step, all);
      NamesDiffer(all, step.name, name);
      hide Asked;
      LoadSaved(s.files, step.name, Asked(s, step).value);
    } else if step.SetMode? || step.SetStreamEnabled? {
      RequestFiles(db, s, step);
    } else {
      OtherFiles(db, s, step);
    }
  }

  // ----- Runs -----

  lemma WithinBefore(db: KnownDb, o: Origin, steps: seq<Step>, name: string, all: seq<CamSlot>)
    requires steps != [] && Within(Reached(db, o, steps).slots, all, name)
    ensures Within(Reached(db, o, steps[..|steps| - 1]).slots, all, name)
    ensures Reached(db, o, steps) == Next(db, Reached(db, o, steps[..|steps| - 1]), steps[|steps| - 1])
  {
    var n := |steps| - 1;
    assert steps[..n + 1] == steps;
    hide Next, Reached, WellNamed, HasCamera;
    ReachedStep(db, o, steps, n);
    NamesPersist(db, Reached(db, o, steps[..n]), steps[n]);
  }

  /** On every run, whichever saves failed: each field of a camera's file is the one
      that a request last saved with success, or else what it was at the start. */
  lemma {:induction false} FilesHoldSaves(db: KnownDb, o: Origin, steps: seq<Step>, name: string, all: seq<CamSlot>)
    requires Within(Reached(db, o, steps).slots, all, name)
    requires forall k | 0 <= k < |steps| :: Numbers(steps[k])
    ensures LastOfEach(Load(Reached(db, o, steps).files, name).GetOr(NOTHING), SavedUpdates(db, o, steps, name),
                       Load(o.files, name).GetOr(NOTHING))
    decreases |steps|
  {
    hide Next, Load, SavedBy, Within, Boot, Reached, LastOfEach;
    if steps == [] {
      BootFiles(db, o);
      NoneGiven(Load(o.files, name).GetOr(NOTHING));
    } else {
      var n := |steps| - 1;
      WithinBefore(db, o, steps, name, all);
      FilesHoldSaves(db, o, steps[..n], name, all);
      var s := Reached(db, o, steps[..n]);
      StepSaves(db, s, steps[n], name, all);
      var us, u := SavedUpdates(db, o, steps[..n], name), SavedBy(s, steps[n], name);
      if u.Some? {
        LastOfEachSnoc(Load(s.files, name).GetOr(NOTHING), us, u.value, Load(o.files, name).GetOr(NOTHING));
      } else {
        assert us + [] == us;
      }
    }
  }

  lemma BootFiles(db: KnownDb, o: Origin)
    ensures Reached(db, o, []).files == o.files
  {
  }

  /** A camera at the next start: each field as `r` gives it, or else as the known
      cameras do, or else as picked from what the camera advertises. */
  predicate StartsWith(cfg: CameraConfig, r: CameraOverride, d: Device, formats: CameraFormats.Formats, db: KnownDb,
                       settings: Settings)
  {
    var known, pick := Known(db, d), CameraFormats.PickDefault(formats);
    var mode := if r.mode.Some? then r.mode.value else if known then db[d.vidPid].mode else pick.mode;
    && cfg.width == (if r.width.Some? then r.width.value else if known then db[d.vidPid].width else pick.width)
    && cfg.height == (if r.height.Some? then r.height.value else if known then db[d.vidPid].height else pick.height)
    && cfg.fps == (if r.fps.Some? then r.fps.value else if known then db[d.vidPid].fps else pick.fps)
    && cfg.enabled == (if r.enabled.Some? then r.enabled.value else settings.defaultEnabled)
    && ModeName(cfg.mode) == if mode == TranscodeRawToH264 then "transcode_raw_to_h264" else "transcode_mjpeg_to_h264"
  }

  lemma BootOverlays(db: KnownDb, again: Origin, j: nat)
    requires j < |again.devices|
    ensures StartsWith(Boot(db, again).slots[j].cfg, Load(again.files, again.devices[j].name).GetOr(NOTHING),
                       again.devices[j], again.formats(j), db, again.settings)
  {
    BootDiscovers(db, again, j);
    hide Boot, IsFound, Load, CameraFormats.PickDefault;
  }

  /** Exactly what the next start brings a camera up with, after any run and whichever
      saves failed: each field is the one that a request last saved with success, or
      else what the file gave before the run, or else what the known cameras or the
      advertised formats give. */
  lemma NextStartGives(db: KnownDb, o: Origin, steps: seq<Step>, again: Origin, i: nat, j: nat)
    requires var s := Reached(db, o, steps);
      && WellNamed(s.slots) && i < |s.slots| && again.files == s.files
      && j < |again.devices| && again.devices[j].name == s.slots[i].cfg.friendlyName
    requires forall k | 0 <= k < |steps| :: Numbers(steps[k])
    ensures var name := again.devices[j].name;
      var r := Load(again.files, name).GetOr(NOTHING);
      && LastOfEach(r, SavedUpdates(db, o, steps, name), Load(o.files, name).GetOr(NOTHING))
      && StartsWith(Boot(db, again).slots[j].cfg, r, again.devices[j], again.formats(j), db, again.settings)
  {
    hide Reached, WellNamed, Boot, StartsWith, Load, SavedUpdates, LastOfEach;
    var s := Reached(db, o, steps);
    FilesHoldSaves(db, o, steps, s.slots[i].cfg.friendlyName, s.slots);
    BootOverlays(db, again, j);
  }

  // ----- One request that was saved -----

  /** No field is given by both. */
  predicate Apart(u: CameraOverride, v: CameraOverride) {
    && (u.mode.None? || v.mode.None?) && (u.width.None? || v.width.None?) && (u.height.None? || v.height.None?)
    && (u.fps.None? || v.fps.None?) && (u.enabled.None? || v.enabled.None?)
  }

  lemma LaidOver(u: CameraOverride, v: CameraOverride, r: CameraOverride)
    ensures u.Over(u.Over(r)) == u.Over(r)
    ensures Apart(u, v) && u.Over(r) == r ==> u.Over(v.Over(r)) == v.Over(r)
  {
  }

  /** The update that step k stores for this camera. */
  function SavedAt(db: KnownDb, o: Origin, steps: seq<Step>, k: nat, name: string): Option<CameraOverride>
    requires k < |steps|
  {
    SavedBy(Reached(db, o, steps[..k]), steps[k], name)
  }

  lemma {:induction false} SavedStays(db: KnownDb, o: Origin, steps: seq<Step>, k: nat, name: string, all: seq<CamSlot>)
    requires k < |steps| && Within(Reached(db, o, steps).slots, all, name)
    requires forall m | 0 <= m < |steps| :: Numbers(steps[m])
    requires SavedAt(db, o, steps, k, name).Some?
    requires forall m | k < m < |steps| && SavedAt(db, o, steps, m, name).Some? ::
      Apart(SavedAt(db, o, steps, k, name).value, SavedAt(db, o, steps, m, name).value)
    ensures var r, u := Load(Reached(db, o, steps).files, name).GetOr(NOTHING), SavedAt(db, o, steps, k, name).value;
      u.Over(r) == r
    decreases |steps|
  {
    hide Next, Load, SavedBy, Within, Reached;
    var n := |steps| - 1;
    var front := steps[..n];
    WithinBefore(db, o, steps, name, all);
    StepSaves(db, Reached(db, o, front), steps[n], name, all);
    var r, u := Load(Reached(db, o, front).files, name).GetOr(NOTHING), SavedAt(db, o, steps, k, name).value;
    var v := SavedAt(db, o, steps, n, name);
    assert v == SavedBy(Reached(db, o, front), steps[n], name);
    if v.Some? { LaidOver(u, v.value, r); }
    if k < n {
      forall m: nat | m < n ensures SavedAt(db, o, front, m, name) == SavedAt(db, o, steps, m, name) {
        assert front[..m] == steps[..m];
      }
      SavedStays(db, o, front, k, name, all);
      assert v.Some? ==> Apart(u, v.value);
    }
  }

  /** Whatever a request gave that was saved, and no later save of its camera gave
      again, the camera comes up with at every next start that finds it, whichever
      other saves failed. */
  lemma SavedRequestSurvives(db: KnownDb, o: Origin, steps: seq<Step>, again: Origin, k: nat, j: nat, name: string)
    requires k < |steps| && SavedAt(db, o, steps, k, name).Some?
    requires forall m | k < m < |steps| && SavedAt(db, o, steps, m, name).Some? ::
      Apart(SavedAt(db, o, steps, k, name).value, SavedAt(db, o, steps, m, name).value)
    requires forall m | 0 <= m < |steps| :: Numbers(steps[m])
    requires WellNamed(Reached(db, o, steps).slots) && again.files == Reached(db, o, steps).files
    requires j < |again.devices| && again.devices[j].name == name
    ensures var u, after := SavedAt(db, o, steps, k, name).value, Boot(db, again).slots[j].cfg;
      && (u.width.Some? ==> after.width == u.width.value) && (u.height.Some? ==> after.height == u.height.value)
      && (u.fps.Some? ==> after.fps == u.fps.value) && (u.enabled.Some? ==> after.enabled == u.enabled.value)
      && (u.mode == Some(TranscodeRawToH264) ==> after.mode == TranscodeRawToH264)
      && (u.mode.Some? && u.mode != Some(TranscodeRawToH264) ==> after.mode == TranscodeMjpegToH264)
      && ModeName(after.mode) in {"transcode_raw_to_h264", "transcode_mjpeg_to_h264"}
  {
    hide Reached, WellNamed, Boot, Load, SavedAt, Apart, HasCamera, CameraFormats.PickDefault;
    var all := Reached(db, o, steps).slots;
    SavedIsKnown(db, o, steps, k, name);
    SavedStays(db, o, steps, k, name, all);
    BootOverlays(db, again, j);
  }

  lemma SavedIsKnown(db: KnownDb, o: Origin, steps: seq<Step>, k: nat, name: string)
    requires k < |steps| && SavedAt(db, o, steps, k, name).Some?
    ensures HasCamera(Reached(db, o, steps).slots, name)
  {
    hide Reached, HasCamera, Asked;
    var s, t := Reached(db, o, steps[..k]), Reached(db, o, steps);
    NamesOverRun(db, o, steps, k);
    AskedIsKnown(s, steps[k], t.slots);
  }

  lemma {:induction false} NamesOverRun(db: KnownDb, o: Origin, steps: seq<Step>, k: nat)
    requires k <= |steps|
    ensures KeepsNames(Reached(db, o, steps[..k]).slots, Reached(db, o, steps).slots)
    decreases |steps|
  {
    hide Next, Reached;
    if k == |steps| {
      assert steps[..k] == steps;
    } else {
      var n := |steps| - 1;
      assert steps[..n][..k] == steps[..k] && steps[..n + 1] == steps;
      NamesOverRun(db, o, steps[..n], k);
      ReachedStep(db, o, steps, n);
      NamesPersist(db, Reached(db, o, steps[..n]), steps[n]);
    }
  }

  /** A request that sets the camera's enabled flag, and is saved. */
  predicate SavesSwitch(step: Step, name: string) {
    Switches(step, name) && step.writable
  }

  /** A camera that was switched on or off with success, and not again since, comes up
      in the same way at every next start that finds it, whichever other saves failed. */
  lemma LastSwitchSurvives(db: KnownDb, o: Origin, steps: seq<Step>, again: Origin, k: nat, j: nat)
    requires k < |steps| && steps[k].SetStreamEnabled? && SavesSwitch(steps[k], steps[k].name)
    requires FindName(Reached(db, o, steps[..k]).slots, steps[k].name) < |Reached(db, o, steps[..k]).slots|
    requires forall m | k < m < |steps| :: !SavesSwitch(steps[m], steps[k].name)
    requires forall m | 0 <= m < |steps| :: Numbers(steps[m])
    requires WellNamed(Reached(db, o, steps).slots) && again.files == Reached(db, o, steps).files
    requires j < |again.devices| && again.devices[j].name == steps[k].name
    ensures Boot(db, again).slots[j].cfg.enabled == steps[k].enabled.value
  {
    hide Reached, FindName, WellNamed, Boot, Numbers, ModeFromString;
    SavedRequestSurvives(db, o, steps, again, k, j, steps[k].name);
  }

  // ----- From the request to the next start -----

  /** A mode change that was saved: the camera's file holds its mode and its numbers
      above zero, and for the rest what it held before; and a start that follows brings
      the camera up with them. */
  lemma SavedModeComesBack(db: KnownDb, s: State, step: Step, again: Origin, i: nat, j: nat)
    requires step.SetMode? && Target(s, step.name, i) && step.mode in MODES && step.writable && Numbers(step)
    requires Lines.NewlineFree(step.name) && again.files == Next(db, s, step).files
    requires j < |again.devices| && again.devices[j].name == step.name
    ensures var was, now := Load(s.files, step.name).GetOr(NOTHING), Load(again.files, step.name);
      && now.Some? && now.value.mode.Some? && ModeName(now.value.mode.value) == step.mode
      && now.value.width == (if step.width > 0 then Some(step.width) else was.width)
      && now.value.height == (if step.height > 0 then Some(step.height) else was.height)
      && now.value.fps == (if step.fps > 0 then Some(step.fps) else was.fps)
      && now.value.enabled == was.enabled
    ensures var after := Boot(db, again).slots[j].cfg;
      && (step.width > 0 ==> after.width == step.width) && (step.height > 0 ==> after.height == step.height)
      && (step.fps > 0 ==> after.fps == step.fps)
      && ModeName(after.mode) ==
           if step.mode == "transcode_raw_to_h264" then "transcode_raw_to_h264" else "transcode_mjpeg_to_h264"
  {
    AskedIs(s, step, i);
    AskedIsValid(s, step);
    RequestFiles(db, s, step);
    ModesAre(step.mode);
    hide Next, Asked, Boot, Load, Saved, CameraFormats.PickDefault, Target, Numbers, Lines.NewlineFree;
    LoadSaved(s.files, step.name, Asked(s, step).value);
    BootOverlays(db, again, j);
    RawIsRaw(step.mode);
    hide ModeFromString;
  }

  lemma RawIsRaw(mode: string)
    ensures ModeFromString(mode) == TranscodeRawToH264 <==> mode == "transcode_raw_to_h264"
  {
    assert |"transcode_raw_to_h264"| == 21;
  }

  /** A switch that was saved: the camera's file holds its flag, and for the rest what it held. */
  lemma SavedSwitchIsKept(db: KnownDb, s: State, step: Step, i: nat)
    requires step.SetStreamEnabled? && Target(s, step.name, i) && step.enabled.Some? && step.writable
    requires Lines.NewlineFree(step.name)
    ensures Load(Next(db, s, step).files, step.name)
         == Some(Load(s.files, step.name).GetOr(NOTHING).(enabled := step.enabled))
  {
    AskedIs(s, step, i);
    RequestFiles(db, s, step);
    hide Next, Asked, Load, Saved, Target, Lines.NewlineFree;
    LoadSaved(s.files, step.name, Asked(s, step).value);
  }

  /** The numbers and the mode of a mode change that was saved come back at every next
      start that finds the camera, if no later request for it changes its mode,
      whichever other saves failed. */
  lemma ModeChangeSurvives(db: KnownDb, o: Origin, steps: seq<Step>, again: Origin, k: nat, i: nat, j: nat)
    requires k < |steps| && steps[k].SetMode? && steps[k].writable && steps[k].mode in MODES
    requires Target(Reached(db, o, steps[..k]), steps[k].name, i)
    requires forall m | k < m < |steps| :: !(steps[m].SetMode? && steps[m].name == steps[k].name && steps[m].writable)
    requires forall m | 0 <= m < |steps| :: Numbers(steps[m])
    requires WellNamed(Reached(db, o, steps).slots) && again.files == Reached(db, o, steps).files
    requires j < |again.devices| && again.devices[j].name == steps[k].name
    ensures var step, after := steps[k], Boot(db, again).slots[j].cfg;
      && (step.width > 0 ==> after.width == step.width) && (step.height > 0 ==> after.height == step.height)
      && (step.fps > 0 ==> after.fps == step.fps)
      && ModeName(after.mode) ==
           if step.mode == "transcode_raw_to_h264" then "transcode_raw_to_h264" else "transcode_mjpeg_to_h264"
  {
    hide Reached, WellNamed, Boot, Numbers, Target, FindName, Load;
    AskedIs(Reached(db, o, steps[..k]), steps[k], i);
    RawIsRaw(steps[k].mode);
    hide ModeFromString;
    SavedRequestSurvives(db, o, steps, again, k, j, steps[k].name);
  }
}
