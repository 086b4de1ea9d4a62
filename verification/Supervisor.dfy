/**
 The supervisor as a state machine. Each step function says what one handler,
 one tick of the supervision loop, or one event of the environment does to the
 whole state; a lock held throughout makes each of them one step.
 */
module Supervisor {
  import opened Wrappers
  import opened Folds
  import opened CameraConfig
  import opened CameraFormats
  import opened OverrideFile
  import opened RestartBackoff
  import opened ViewerCount
  import opened PathAlloc

  datatype Device = Device(name: string, vidPid: string)

  datatype KnownCamera = KnownCamera(mode: Mode, width: int, height: int, fps: int)

  type KnownDb = map<string, KnownCamera>

  datatype Settings = Settings(defaultEnabled: bool, viewerUser: string, viewerPass: string)

  /** One camera. `running` is the state of its publisher process. The last three
      fields record history for the theorems; no step reads them: the times of
      the process's starts, the hook's reports since the count was last reset, and
      the enabled flag that a user last set, or that the file held at discovery. */
  datatype CamSlot = CamSlot(
    cfg: CameraConfig, running: bool, backoff: Backoff, lastRunning: bool, present: bool, viewerCount: int,
    formats: Formats, vidPid: string,
    starts: seq<int>, reports: seq<ViewerEvent>, chosen: Option<bool>)
  {
    predicate Active() {
      present && cfg.enabled
    }
  }

  /** What clients are told about a camera. */
  datatype CamView = CamView(
    name: string, path: string, mode: string, width: int, height: int, fps: int,
    running: bool, present: bool, enabled: bool, restarts: int, viewerCount: int, formats: Formats)

  datatype Event =
    | CameraStateChanged(cam: CamView)
    | CamerasChanged(cams: seq<CamView>)
    | MediaMtxStateChanged(running: bool)
    | ViewerChanged(connected: bool, path: string, camera: string)

  /** `log` holds the events published so far, and `outbox` those that the events
      thread has composed under the lock and publishes after releasing it;
      `mtxStarts` records the times of MediaMTX's starts, and no step reads it. */
  datatype State = State(
    slots: seq<CamSlot>, mtxRunning: bool, mtxBackoff: Backoff, settings: Settings, files: Files,
    stop: bool, log: seq<Event>, outbox: seq<Event>, mtxStarts: seq<int>)

  /** The environment's part in a start: when it is made, and whether a child
      process is up when the supervisor next looks. */
  datatype Attempt = Attempt(at: int, up: bool)

  type Attempts = nat -> Attempt

  function View(s: CamSlot): CamView {
    CamView(s.cfg.friendlyName, s.cfg.rtspPath, ModeName(s.cfg.mode), s.cfg.width, s.cfg.height, s.cfg.fps,
            s.running, s.present, s.cfg.enabled, s.backoff.restarts, s.viewerCount, s.formats)
  }

  function Views(slots: seq<CamSlot>): seq<CamView> {
    seq(|slots|, i requires 0 <= i < |slots| => View(slots[i]))
  }

  // ----- One slot -----

  function StartNoSleep(s: CamSlot, stop: bool, a: Attempt): CamSlot {
    if stop then s
    else s.(running := a.up, backoff := Book(s.backoff, a.at), starts := s.starts + [a.at])
  }

  /** A new process object in place of the old one, whose child is killed. */
  function Rebuild(s: CamSlot): CamSlot {
    s.(running := false, backoff := FRESH, viewerCount := 0, starts := [], reports := [])
  }

  function ResetViewers(s: CamSlot): CamSlot {
    s.(viewerCount := 0, reports := [])
  }

  /** Stop, rebuild, start: what three handlers do. */
  function Restarted(s: CamSlot, stop: bool, a: Attempt): CamSlot {
    StartNoSleep(Rebuild(s), stop, a)
  }

  function Synced(s: CamSlot): CamSlot {
    s.(lastRunning := s.running)
  }

  function TickSlot(s: CamSlot, now: int, stop: bool, a: Attempt): CamSlot {
    if !s.Active() then
      if s.lastRunning || s.viewerCount != 0 then ResetViewers(s).(lastRunning := false) else s
    else
      var s1 := if !s.running && s.viewerCount != 0 then ResetViewers(s) else s;
      var s2 := if !s1.running && now >= s1.backoff.earliestNext then StartNoSleep(s1, stop, a) else s1;
      Synced(s2)
  }

  function TickEvents(s: CamSlot, now: int, stop: bool, a: Attempt): seq<Event> {
    var t := TickSlot(s, now, stop, a);
    if if s.Active() then t.running != s.lastRunning else s.lastRunning || s.viewerCount != 0
    then [CameraStateChanged(View(t))] else []
  }

  function PresenceSlot(s: CamSlot, here: bool, stop: bool, a: Attempt): CamSlot {
    if s.present && !here then s.(present := false, running := false)
    else if !s.present && here then
      var t := s.(present := true);
      if s.cfg.enabled then Restarted(t, stop, a) else t
    else s
  }

  // ----- Choosing the configuration of a camera -----

  function Resolve(cfg: CameraConfig, vidPid: string, formats: Formats, db: KnownDb, settings: Settings,
                   files: Files): CameraConfig
  {
    var o := Load(files, cfg.friendlyName).GetOr(NOTHING);
    var base := if vidPid != "" && vidPid in db then db[vidPid]
                else var d := PickDefault(formats); KnownCamera(d.mode, d.width, d.height, d.fps);
    cfg.(mode := Coerce(o.mode.GetOr(base.mode)),
         width := o.width.GetOr(base.width), height := o.height.GetOr(base.height), fps := o.fps.GetOr(base.fps),
         enabled := o.enabled.GetOr(settings.defaultEnabled))
  }

  /** A camera just found, before any start. */
  function NewSlot(d: Device, path: string, formats: Formats, db: KnownDb, settings: Settings, files: Files): CamSlot {
    var cfg := CameraConfig(d.name, path, TranscodeMjpegToH264, 640, 480, 30, true);
    CamSlot(Resolve(cfg, d.vidPid, formats, db, settings, files), false, FRESH, false, true, 0, formats, d.vidPid,
            [], [], Load(files, d.name).GetOr(NOTHING).enabled)
  }

  function Launched(s: CamSlot, stop: bool, a: Attempt): CamSlot {
    if s.cfg.enabled then StartNoSleep(s, stop, a) else s
  }

  // ----- All slots -----

  function Names(slots: seq<CamSlot>): set<string> {
    set s | s in slots :: s.cfg.friendlyName
  }

  function Paths(slots: seq<CamSlot>): seq<string> {
    seq(|slots|, i requires 0 <= i < |slots| => slots[i].cfg.rtspPath)
  }

  /** The first slot with this name, or |slots|. */
  function FindName(slots: seq<CamSlot>, name: string): (i: nat)
    ensures i <= |slots| && (forall j | 0 <= j < i :: slots[j].cfg.friendlyName != name)
    ensures i < |slots| ==> slots[i].cfg.friendlyName == name
  {
    if slots == [] || slots[0].cfg.friendlyName == name then 0 else 1 + FindName(slots[1..], name)
  }

  function HookPath(rtspPath: string): string {
    if rtspPath != "" && rtspPath[0] == '/' then rtspPath[1..] else rtspPath
  }

  /** The first slot that the hook knows under this path, or |slots|. */
  function FindPath(slots: seq<CamSlot>, path: string): (i: nat)
    ensures i <= |slots| && (forall j | 0 <= j < i :: HookPath(slots[j].cfg.rtspPath) != path)
    ensures i < |slots| ==> HookPath(slots[i].cfg.rtspPath) == path
  {
    if slots == [] || HookPath(slots[0].cfg.rtspPath) == path then 0 else 1 + FindPath(slots[1..], path)
  }

  function TickSlots(slots: seq<CamSlot>, now: int, stop: bool, at: Attempts): (r: seq<CamSlot>)
    ensures |r| == |slots| && forall i | 0 <= i < |r| :: r[i] == TickSlot(slots[i], now, stop, at(i))
  {
    seq(|slots|, i requires 0 <= i < |slots| => TickSlot(slots[i], now, stop, at(i)))
  }

  function TickLog(slots: seq<CamSlot>, now: int, stop: bool, at: Attempts): seq<Event> {
    if slots == [] then []
    else var n := |slots| - 1; TickLog(slots[..n], now, stop, at) + TickEvents(slots[n], now, stop, at(n))
  }

  function PresenceSlots(slots: seq<CamSlot>, here: set<string>, stop: bool, at: Attempts): (r: seq<CamSlot>)
    ensures |r| == |slots|
    ensures forall i | 0 <= i < |r| :: r[i] == PresenceSlot(slots[i], slots[i].cfg.friendlyName in here, stop, at(i))
  {
    seq(|slots|, i requires 0 <= i < |slots| =>
      PresenceSlot(slots[i], slots[i].cfg.friendlyName in here, stop, at(i)))
  }

  predicate PresenceDiffers(slots: seq<CamSlot>, here: set<string>) {
    exists i | 0 <= i < |slots| :: slots[i].present != (slots[i].cfg.friendlyName in here)
  }

  /** Appending the devices whose names were not known before. */
  function AppendSlots(slots: seq<CamSlot>, known: set<string>, devices: seq<Device>, formats: Device -> Formats,
                       db: KnownDb, settings: Settings, files: Files, stop: bool, at: Attempts): seq<CamSlot>
  {
    if devices == [] then slots else
      var front := AppendSlots(slots, known, devices[..|devices| - 1], formats, db, settings, files, stop, at);
      var d := devices[|devices| - 1];
      if d.name in known then front
      else front + [Launched(NewSlot(d, AllocatedPath(Paths(front)), formats(d), db, settings, files), stop, at(|front|))]
  }

  // ----- Steps -----

  datatype Step =
    | Tick(now: int, mtx: Attempt, at: Attempts)
    | RestartCamera(name: string, a: Attempt)
    | SetMode(name: string, mode: string, width: int, height: int, fps: int, writable: bool, a: Attempt)
    | SetStreamEnabled(name: string, enabled: Option<bool>, writable: bool, a: Attempt)
    | SetViewerCredentials(user: string, pass: string, saved: bool, written: bool, a: Attempt)
    | ReloadSettings(loaded: Settings)
    | Shutdown
    | ViewerHook(kind: string, path: string)
    | PublishNext
    | PresenceDiff(current: seq<Device>, at: Attempts)
    | AppendNew(devices: seq<Device>, formats: Device -> Formats, listChanged: bool, at: Attempts)
    | Crash(slot: nat)
    | MtxCrash
    | FinalSweep

  function StartMtx(s: State, a: Attempt): State {
    if s.stop then s.(mtxRunning := false)
    else s.(mtxRunning := a.up, mtxBackoff := Book(s.mtxBackoff, a.at), mtxStarts := s.mtxStarts + [a.at])
  }

  function MtxTick(s: State, now: int, mtx: Attempt): State {
    if s.mtxRunning || now < s.mtxBackoff.earliestNext then s
    else var t := StartMtx(s, mtx); t.(log := s.log + [MediaMtxStateChanged(t.mtxRunning)])
  }

  /** MediaMTX is looked after first, then every camera. */
  function DoTick(s: State, now: int, mtx: Attempt, at: Attempts): State {
    var t := MtxTick(s, now, mtx);
    t.(slots := TickSlots(s.slots, now, s.stop, at), log := t.log + TickLog(s.slots, now, s.stop, at))
  }

  function Announce(s: State, i: nat, slot: CamSlot): State
    requires i < |s.slots|
  {
    s.(slots := s.slots[i := Synced(slot)], log := s.log + [CameraStateChanged(View(slot))])
  }

  function DoRestartCamera(s: State, name: string, a: Attempt): State {
    var i := FindName(s.slots, name);
    if name == "" || i == |s.slots| then s
    else Announce(s, i, Restarted(s.slots[i], s.stop, a))
  }

  function Given(n: int): Option<int> {
    if n > 0 then Some(n) else None
  }

  function ModeUpdate(mode: string, width: int, height: int, fps: int): CameraOverride {
    CameraOverride(Some(ModeFromString(mode)), Given(width), Given(height), Given(fps), None)
  }

  function Reconfigured(cfg: CameraConfig, u: CameraOverride): CameraConfig {
    cfg.(mode := u.mode.GetOr(cfg.mode), width := u.width.GetOr(cfg.width), height := u.height.GetOr(cfg.height),
         fps := u.fps.GetOr(cfg.fps), enabled := u.enabled.GetOr(cfg.enabled))
  }

  function Stored(files: Files, name: string, u: CameraOverride, writable: bool): Files {
    if writable then Saved(files, name, u) else files
  }

  function DoSetMode(s: State, name: string, mode: string, width: int, height: int, fps: int, writable: bool,
                     a: Attempt): State
  {
    var i := FindName(s.slots, name);
    if name == "" || ModeFromString(mode) == Unknown || i == |s.slots| then s
    else
      var u := ModeUpdate(mode, width, height, fps);
      var slot := s.slots[i].(cfg := Reconfigured(s.slots[i].cfg, u));
      Announce(s, i, Restarted(slot, s.stop, a)).(files := Stored(s.files, name, u, writable))
  }

  function EnabledUpdate(want: bool): CameraOverride {
    NOTHING.(enabled := Some(want))
  }

  function Switched(slot: CamSlot, want: bool, stop: bool, a: Attempt): CamSlot {
    var t := slot.(cfg := slot.cfg.(enabled := want), chosen := Some(want));
    if !want then t.(running := false)
    else if t.present then Restarted(t, stop, a)
    else t
  }

  function DoSetStreamEnabled(s: State, name: string, enabled: Option<bool>, writable: bool, a: Attempt): State {
    var i := FindName(s.slots, name);
    if name == "" || enabled.None? || i == |s.slots| then s
    else
      Announce(s, i, Switched(s.slots[i], enabled.value, s.stop, a))
        .(files := Stored(s.files, name, EnabledUpdate(enabled.value), writable))
  }

  function DoSetViewerCredentials(s: State, user: string, pass: string, saved: bool, written: bool, a: Attempt): State {
    if user == "" || pass == "" then s
    else
      var s1 := s.(settings := s.settings.(viewerUser := user, viewerPass := pass));
      if !saved || !written then s1
      else
        var m := StartMtx(s1, a);
        m.(log := s.log + [MediaMtxStateChanged(m.mtxRunning), CamerasChanged(Views(s.slots))])
  }

  function ReportOf(kind: string): Option<ViewerEvent> {
    if kind == "read" then Some(Read) else if kind == "unread" then Some(Unread) else None
  }

  function Counted(slot: CamSlot, e: ViewerEvent): CamSlot {
    slot.(viewerCount := Bump(slot.viewerCount, e), reports := slot.reports + [e])
  }

  function DoViewerHook(s: State, kind: string, path: string): State {
    var e := ReportOf(kind);
    var i := FindPath(s.slots, path);
    if e.None? then s
    else if i == |s.slots| then s.(outbox := s.outbox + [ViewerChanged(e.value.Read?, "/" + path, path)])
    else
      var slot := Counted(s.slots[i], e.value);
      s.(slots := s.slots[i := slot],
         outbox := s.outbox + [ViewerChanged(e.value.Read?, "/" + path, slot.cfg.friendlyName),
                               CameraStateChanged(View(slot))])
  }

  /** The events thread publishes what it composed, one event at a time. */
  function DoPublishNext(s: State): State {
    if s.outbox == [] then s else s.(log := s.log + [s.outbox[0]], outbox := s.outbox[1..])
  }

  function DeviceNames(devices: seq<Device>): set<string> {
    set d | d in devices :: d.name
  }

  function DoPresenceDiff(s: State, current: seq<Device>, at: Attempts): State {
    s.(slots := PresenceSlots(s.slots, DeviceNames(current), s.stop, at))
  }

  function DoAppendNew(s: State, db: KnownDb, devices: seq<Device>, formats: Device -> Formats, listChanged: bool,
                       at: Attempts): State
  {
    var slots := AppendSlots(s.slots, Names(s.slots), devices, formats, db, s.settings, s.files, s.stop, at);
    s.(slots := slots,
       log := if listChanged || |slots| > |s.slots| then s.log + [CamerasChanged(Views(slots))] else s.log)
  }

  function Stopped(slots: seq<CamSlot>): (r: seq<CamSlot>)
    ensures |r| == |slots| && forall i | 0 <= i < |r| :: r[i] == slots[i].(running := false)
  {
    seq(|slots|, i requires 0 <= i < |slots| => slots[i].(running := false))
  }

  function DoFinalSweep(s: State): State {
    s.(slots := Stopped(s.slots), mtxRunning := false)
  }

  function Next(db: KnownDb, s: State, step: Step): State {
    match step
    case Tick(now, mtx, at) => DoTick(s, now, mtx, at)
    case RestartCamera(name, a) => DoRestartCamera(s, name, a)
    case SetMode(name, mode, w, h, f, writable, a) => DoSetMode(s, name, mode, w, h, f, writable, a)
    case SetStreamEnabled(name, enabled, writable, a) => DoSetStreamEnabled(s, name, enabled, writable, a)
    case SetViewerCredentials(user, pass, saved, written, a) =>
      DoSetViewerCredentials(s, user, pass, saved, written, a)
    case ReloadSettings(loaded) => s.(settings := loaded)
    case Shutdown => s.(stop := true)
    case ViewerHook(kind, path) => DoViewerHook(s, kind, path)
    case PublishNext => DoPublishNext(s)
    case PresenceDiff(current, at) => DoPresenceDiff(s, current, at)
    case AppendNew(devices, formats, listChanged, at) => DoAppendNew(s, db, devices, formats, listChanged, at)
    case Crash(i) => if i < |s.slots| then s.(slots := s.slots[i := s.slots[i].(running := false)]) else s
    case MtxCrash => s.(mtxRunning := false)
    case FinalSweep => DoFinalSweep(s)
  }

  /** The sweep waits for the stop flag, and the attempts of a tick come no earlier
      than the time it read. */
  ghost predicate Enabled(s: State, step: Step) {
    && (step.FinalSweep? ==> s.stop)
    && (step.Tick? ==> step.mtx.at >= step.now && forall i: nat :: step.at(i).at >= step.now)
  }

  // ----- Runs -----

  /** What a start of the program finds. */
  datatype Origin = Origin(devices: seq<Device>, formats: nat -> Formats, settings: Settings, files: Files,
                           mtx: Attempt, at: Attempts)

  function BootSlot(db: KnownDb, o: Origin, i: nat): CamSlot
    requires i < |o.devices|
  {
    Synced(Launched(NewSlot(o.devices[i], Path(i), o.formats(i), db, o.settings, o.files), false, o.at(i)))
  }

  /** Startup: every enumerated camera gets the next path and, if enabled, a start. */
  function Boot(db: KnownDb, o: Origin): (s: State)
    ensures |s.slots| == |o.devices| && forall i | 0 <= i < |s.slots| :: s.slots[i] == BootSlot(db, o, i)
  {
    State(seq(|o.devices|, i requires 0 <= i < |o.devices| => BootSlot(db, o, i)),
          o.mtx.up, Book(FRESH, o.mtx.at), o.settings, o.files, false, [], [], [o.mtx.at])
  }

  function Reached(db: KnownDb, o: Origin, steps: seq<Step>): State {
    Fold((s: State, step: Step) => Next(db, s, step), Boot(db, o), steps)
  }

  ghost predicate IsRun(db: KnownDb, o: Origin, steps: seq<Step>) {
    forall k | 0 <= k < |steps| :: Enabled(Reached(db, o, steps[..k]), steps[k])
  }
}
