/** What each step does to each field, told from the request's own words and numbers:
    what a user, a hook report or a device list can see of the step functions. */
module SupervisorEffects {
  import opened Wrappers
  import opened CameraConfig
  import opened CameraFormats
  import opened OverrideFile
  import opened RestartBackoff
  import opened ViewerCount
  import opened PathAlloc
  import opened Supervisor
  import opened SupervisorRuns
  import opened SupervisorRecovery
  import Decimal
  import Told = SupervisorTold
  import Gate = SupervisorGate

  /** The first slot with this name, which is what a request acts on. */
  predicate Target(s: State, name: string, i: nat) {
    && name != "" && i < |s.slots| && s.slots[i].cfg.friendlyName == name
    && forall j | 0 <= j < i :: s.slots[j].cfg.friendlyName != name
  }

  predicate NoTarget(s: State, name: string) {
    name == "" || forall j | 0 <= j < |s.slots| :: s.slots[j].cfg.friendlyName != name
  }

  /** The view tells all that clients are to know of the slot. */
  predicate Describes(v: CamView, slot: CamSlot) {
    && v.name == slot.cfg.friendlyName && v.path == slot.cfg.rtspPath && ModeFromString(v.mode) == slot.cfg.mode
    && v.width == slot.cfg.width && v.height == slot.cfg.height && v.fps == slot.cfg.fps
    && v.enabled == slot.cfg.enabled && v.running == slot.running && v.present == slot.present
    && v.restarts == slot.backoff.restarts && v.viewerCount == slot.viewerCount && v.formats == slot.formats
  }

  /** The one event that was added to the log is about this slot. */
  predicate Announces(s: State, t: State, slot: CamSlot) {
    && |t.log| == |s.log| + 1 && s.log <= t.log
    && t.log[|s.log|].CameraStateChanged? && Describes(t.log[|s.log|].cam, slot)
  }

  /** The process is a new one: nothing of the old one's bookkeeping is left, and it
      has had one start, unless the program is stopping. */
  predicate IsNew(slot: CamSlot, stop: bool, a: Attempt) {
    && slot.running == (!stop && a.up) && slot.viewerCount == 0 && slot.reports == []
    && slot.starts == (if stop then [] else [a.at])
    && slot.backoff == if stop then Backoff(0, 0, 1000, 0) else Backoff(a.at, a.at + 1000, 2000, 1)
  }

  /** Apart from its configuration, its process and what was told of it, the slot is as it was. */
  predicate SameDevice(a: CamSlot, b: CamSlot) {
    && b.cfg.friendlyName == a.cfg.friendlyName && b.cfg.rtspPath == a.cfg.rtspPath
    && b.vidPid == a.vidPid && b.formats == a.formats
  }

  /** Only slot i, the log and the files may differ. */
  predicate OnlySlot(s: State, t: State, i: nat) {
    && i < |s.slots| == |t.slots| && t.slots == s.slots[i := t.slots[i]]
    && t == s.(slots := t.slots, log := t.log, files := t.files)
  }

  lemma TargetIsFound(s: State, name: string, i: nat)
    requires Target(s, name, i)
    ensures FindName(s.slots, name) == i
  {
  }

  lemma NoneIsFound(s: State, name: string)
    requires NoTarget(s, name)
    ensures name == "" || FindName(s.slots, name) == |s.slots|
  {
  }

  lemma ViewDescribes(slot: CamSlot)
    ensures Describes(View(slot), slot)
  {
    ModeNames(slot.cfg.mode, "");
  }

  // ----- Requests -----

  /** A restart request gives the camera a new process, and does nothing else. */
  lemma RestartDoes(s: State, name: string, a: Attempt, i: nat)
    ensures NoTarget(s, name) ==> DoRestartCamera(s, name, a) == s
    ensures Target(s, name, i) ==>
      var t := DoRestartCamera(s, name, a);
      && OnlySlot(s, t, i) && t.files == s.files && Announces(s, t, t.slots[i])
      && IsNew(t.slots[i], s.stop, a) && t.slots[i].lastRunning == t.slots[i].running
      && t.slots[i].cfg == s.slots[i].cfg && t.slots[i].present == s.slots[i].present
      && SameDevice(s.slots[i], t.slots[i]) && t.slots[i].chosen == s.slots[i].chosen
  {
    hide View, FindName, Describes;
    if Target(s, name, i) {
      TargetIsFound(s, name, i);
      ViewDescribes(Restarted(s.slots[i], s.stop, a));
      DescribesSynced(Restarted(s.slots[i], s.stop, a));
    } else if NoTarget(s, name) {
      NoneIsFound(s, name);
    }
  }

  lemma DescribesSynced(slot: CamSlot)
    ensures forall v :: Describes(v, Synced(slot)) <==> Describes(v, slot)
  {
  }

  const MODES := {"passthrough_mjpeg", "passthrough_h264", "transcode_mjpeg_to_h264", "transcode_raw_to_h264",
                  "transcode_raw_to_mjpeg"}

  /** A mode change takes the mode and each number above zero, and keeps the others. */
  lemma SetModeDoes(s: State, name: string, mode: string, width: int, height: int, fps: int, writable: bool,
                    a: Attempt, i: nat)
    ensures NoTarget(s, name) || mode !in MODES ==> DoSetMode(s, name, mode, width, height, fps, writable, a) == s
    ensures Target(s, name, i) && mode in MODES ==>
      var t := DoSetMode(s, name, mode, width, height, fps, writable, a);
      && OnlySlot(s, t, i) && (!writable ==> t.files == s.files) && Announces(s, t, t.slots[i])
      && var was, now := s.slots[i], t.slots[i];
      && ModeName(now.cfg.mode) == mode
      && now.cfg.width == (if width > 0 then width else was.cfg.width)
      && now.cfg.height == (if height > 0 then height else was.cfg.height)
      && now.cfg.fps == (if fps > 0 then fps else was.cfg.fps)
      && now.cfg.enabled == was.cfg.enabled && now.chosen == was.chosen && now.present == was.present
      && IsNew(now, s.stop, a) && now.lastRunning == now.running && SameDevice(was, now)
  {
    ModesAre(mode);
    hide View, FindName, Describes, ModeFromString, Saved;
    if Target(s, name, i) {
      TargetIsFound(s, name, i);
      var u := ModeUpdate(mode, width, height, fps);
      var slot := Restarted(s.slots[i].(cfg := Reconfigured(s.slots[i].cfg, u)), s.stop, a);
      ViewDescribes(slot);
      DescribesSynced(slot);
    } else if NoTarget(s, name) {
      NoneIsFound(s, name);
    }
  }

  lemma ModesAre(mode: string)
    ensures mode in MODES <==> ModeFromString(mode) != Unknown
    ensures mode in MODES ==> ModeName(ModeFromString(mode)) == mode
  {
  }

  /** A switch sets the flag, and stops the process or, of a camera that is there, makes a new one. */
  lemma SwitchDoes(s: State, name: string, enabled: Option<bool>, writable: bool, a: Attempt, i: nat)
    ensures NoTarget(s, name) || enabled.None? ==> DoSetStreamEnabled(s, name, enabled, writable, a) == s
    ensures Target(s, name, i) && enabled.Some? ==>
      var t := DoSetStreamEnabled(s, name, enabled, writable, a);
      && OnlySlot(s, t, i) && (!writable ==> t.files == s.files) && Announces(s, t, t.slots[i])
      && var was, now := s.slots[i], t.slots[i];
      && now.cfg == was.cfg.(enabled := enabled.value) && now.present == was.present && now.chosen == enabled
      && SameDevice(was, now) && now.lastRunning == now.running
      && (if enabled == Some(true) && was.present then IsNew(now, s.stop, a)
          else && now.running == (enabled.value && was.running) && now.starts == was.starts
               && now.backoff == was.backoff && now.viewerCount == was.viewerCount)
  {
    hide View, FindName, Describes, Saved;
    if Target(s, name, i) && enabled.Some? {
      TargetIsFound(s, name, i);
      ViewDescribes(Switched(s.slots[i], enabled.value, s.stop, a));
      DescribesSynced(Switched(s.slots[i], enabled.value, s.stop, a));
    } else if NoTarget(s, name) {
      NoneIsFound(s, name);
    }
  }

  /** New credentials are kept, even when they cannot be saved; MediaMTX is restarted
      only when they were saved and its configuration was written. */
  lemma CredentialsDo(s: State, user: string, pass: string, saved: bool, written: bool, a: Attempt)
    ensures var t := DoSetViewerCredentials(s, user, pass, saved, written, a);
      var accepted, done := user != "" && pass != "", user != "" && pass != "" && saved && written;
      && t.settings.viewerUser == (if accepted then user else s.settings.viewerUser)
      && t.settings.viewerPass == (if accepted then pass else s.settings.viewerPass)
      && t.settings.defaultEnabled == s.settings.defaultEnabled
      && t.mtxRunning == (if done then !s.stop && a.up else s.mtxRunning)
      && t.slots == s.slots && t.files == s.files && t.stop == s.stop && t.outbox == s.outbox
      && (!done ==> t.log == s.log)
      && (done ==> |t.log| == |s.log| + 2 && s.log <= t.log && t.log[|s.log|] == MediaMtxStateChanged(t.mtxRunning)
                   && ListsAll(t.log[|s.log| + 1], t.slots))
  {
    hide View, Describes;
    forall i | 0 <= i < |s.slots| ensures Describes(Views(s.slots)[i], s.slots[i]) { ViewDescribes(s.slots[i]); }
  }

  /** The list describes every slot, in order. */
  predicate ListsAll(e: Event, slots: seq<CamSlot>) {
    && e.CamerasChanged? && |e.cams| == |slots|
    && forall i | 0 <= i < |slots| :: Describes(e.cams[i], slots[i])
  }

  // ----- MediaMTX -----

  /** A tick tries MediaMTX when it is down and due, and tells what came of it. */
  lemma TickLooksAfterMtx(s: State, now: int, mtx: Attempt, at: Attempts)
    ensures var t, due := DoTick(s, now, mtx, at), !s.mtxRunning && now >= s.mtxBackoff.earliestNext;
      && t.mtxRunning == (s.mtxRunning || (due && !s.stop && mtx.up))
      && t.log == s.log + (if due then [MediaMtxStateChanged(t.mtxRunning)] else [])
                + TickLog(s.slots, now, s.stop, at)
      && t == s.(slots := t.slots, log := t.log, mtxRunning := t.mtxRunning, mtxBackoff := t.mtxBackoff,
                 mtxStarts := t.mtxStarts)
  {
    assert s.log + [] == s.log;
  }

  /** The events of a tick come slot by slot: at most one for each, which describes the
      camera as the tick leaves it. */
  lemma TickTellsInOrder(s: State, step: Step, k: nat)
    requires step.Tick? && k < |s.slots|
    ensures var before, upTo := TickLog(s.slots[..k], step.now, s.stop, step.at),
                               TickLog(s.slots[..k + 1], step.now, s.stop, step.at);
      && before <= upTo <= TickLog(s.slots, step.now, s.stop, step.at) && |upTo| <= |before| + 1
      && (|upTo| > |before| ==>
            upTo[|before|].CameraStateChanged?
            && Describes(upTo[|before|].cam, DoTick(s, step.now, step.mtx, step.at).slots[k]))
  {
    assert s.slots[..k + 1][..k] == s.slots[..k];
    ViewDescribes(TickSlot(s.slots[k], step.now, s.stop, step.at(k)));
    TickLogGrows(s.slots, k + 1, step.now, s.stop, step.at);
    hide View, Describes;
  }

  lemma {:induction false} TickLogGrows(slots: seq<CamSlot>, k: nat, now: int, stop: bool, at: Attempts)
    requires k <= |slots|
    ensures TickLog(slots[..k], now, stop, at) <= TickLog(slots, now, stop, at)
    decreases |slots|
  {
    hide TickEvents;
    if k == |slots| {
      assert slots[..k] == slots;
    } else {
      assert slots[..|slots| - 1][..k] == slots[..k];
      TickLogGrows(slots[..|slots| - 1], k, now, stop, at);
    }
  }

  // ----- Starts -----

  /** A tick tries to start a camera that is present, enabled, down and due. */
  predicate TriesToStart(slot: CamSlot, now: int, stop: bool) {
    slot.present && slot.cfg.enabled && !slot.running && !stop && now >= slot.backoff.earliestNext
  }

  /** What a start at this time makes of the bookkeeping: the doubled delay or, after
      more than a minute, the first one again. */
  predicate IsBooked(was: Backoff, now: Backoff, at: int) {
    && now.lastStart == at
    && (if was.restarts > 0 && at > was.lastStart + 60000
        then now.earliestNext == at + 1000 && now.delay == 2000 && now.restarts == 1
        else && now.earliestNext == at + was.delay && now.restarts == was.restarts + 1
             && now.delay == if was.delay <= 15000 then was.delay * 2 else 30000)
  }

  lemma BookIsBooked(b: Backoff, at: int)
    ensures IsBooked(b, Book(b, at), at)
  {
  }

  /** In a tick exactly the attempts made are booked, successful or not. */
  lemma TickBooksStarts(s: State, step: Step, i: nat)
    requires step.Tick? && i < |s.slots|
    ensures var was, now := s.slots[i], DoTick(s, step.now, step.mtx, step.at).slots[i];
      && now.cfg == was.cfg && now.present == was.present && SameDevice(was, now) && now.chosen == was.chosen
      && (if TriesToStart(was, step.now, s.stop) then
            && now.starts == was.starts + [step.at(i).at] && now.running == step.at(i).up
            && IsBooked(was.backoff, now.backoff, step.at(i).at)
          else now.starts == was.starts && now.running == was.running && now.backoff == was.backoff)
  {
    SlotBooksStarts(s.slots[i], step.now, s.stop, step.at(i));
    hide TickSlot, TickLog, MtxTick, TriesToStart, IsBooked, SameDevice;
  }

  lemma SlotBooksStarts(slot: CamSlot, now: int, stop: bool, a: Attempt)
    ensures var t := TickSlot(slot, now, stop, a);
      && t.cfg == slot.cfg && t.present == slot.present && SameDevice(slot, t) && t.chosen == slot.chosen
      && (if TriesToStart(slot, now, stop) then
            t.starts == slot.starts + [a.at] && t.running == a.up && IsBooked(slot.backoff, t.backoff, a.at)
          else t.starts == slot.starts && t.running == slot.running && t.backoff == slot.backoff)
  {
    BookIsBooked(slot.backoff, a.at);
    hide Book, IsBooked;
  }

  // ----- Hook reports -----

  /** What the hook thread composes names the path and the camera that streams under
      it, and describes that camera as it is now. */
  lemma HookComposes(s: State, kind: string, path: string, i: nat)
    requires Inv(s) && i < |s.slots| && s.slots[i].cfg.rtspPath == "/" + path && (kind == "read" || kind == "unread")
    ensures var t, n := DoViewerHook(s, kind, path), |s.outbox|;
      && t == s.(slots := t.slots, outbox := t.outbox) && |t.slots| == |s.slots|
      && |t.outbox| == n + 2 && s.outbox <= t.outbox
      && t.outbox[n] == ViewerChanged(kind == "read", "/" + path, s.slots[i].cfg.friendlyName)
      && t.outbox[n + 1].CameraStateChanged? && Describes(t.outbox[n + 1].cam, t.slots[i])
  {
    PathIsFound(s, path, i);
    hide View, Describes, FindPath;
    ViewDescribes(DoViewerHook(s, kind, path).slots[i]);
  }

  /** Reports of no camera are passed on under their path; other kinds do nothing at all. */
  lemma HookWithoutCamera(s: State, kind: string, path: string)
    requires Inv(s)
    ensures kind != "read" && kind != "unread" ==> DoViewerHook(s, kind, path) == s
    ensures (kind == "read" || kind == "unread")
      && (forall i | 0 <= i < |s.slots| :: s.slots[i].cfg.rtspPath != "/" + path)
      ==> DoViewerHook(s, kind, path) == s.(outbox := s.outbox + [ViewerChanged(kind == "read", "/" + path, path)])
  {
    hide FindPath, View;
    var i := FindPath(s.slots, path);
    if i < |s.slots| { assert Path(i)[0] == '/' && Path(i) == "/" + Path(i)[1..]; }
  }

  /** What was composed comes out once, and in order. */
  lemma PublishingKeepsOrder(s: State)
    ensures var t := DoPublishNext(s);
      && t.log + t.outbox == s.log + s.outbox && s.log <= t.log
      && |t.outbox| == (if s.outbox == [] then 0 else |s.outbox| - 1)
      && t == s.(log := t.log, outbox := t.outbox)
  {
  }

  // ----- Presence -----

  predicate Attached(devices: seq<Device>, name: string) {
    exists d | d in devices :: d.name == name
  }

  /** After a presence check each camera counts as present exactly when its name was
      enumerated. One that was unplugged is stopped, one that came back gets a new
      process if it is enabled, and nothing else changes. */
  lemma PresenceDoes(s: State, current: seq<Device>, at: Attempts, i: nat)
    requires i < |s.slots|
    ensures var t := DoPresenceDiff(s, current, at);
      && |t.slots| == |s.slots| && t == s.(slots := t.slots)
      && var was, now, here := s.slots[i], t.slots[i], Attached(current, s.slots[i].cfg.friendlyName);
      && now.present == here && now.cfg == was.cfg && SameDevice(was, now) && now.chosen == was.chosen
      && now.lastRunning == was.lastRunning
      && (was.present == here ==> now == was)
      && (was.present && !here ==> !now.running)
      && (!was.present && here && was.cfg.enabled ==> IsNew(now, s.stop, at(i)))
      && (!here || !was.cfg.enabled ==> now.starts == was.starts && now.backoff == was.backoff
                                        && now.viewerCount == was.viewerCount)
  {
    assert Attached(current, s.slots[i].cfg.friendlyName) <==> s.slots[i].cfg.friendlyName in DeviceNames(current);
  }

  /** The check reports a change exactly when some camera's presence changes. */
  lemma ChangeIsReported(s: State, current: seq<Device>, at: Attempts)
    ensures PresenceDiffers(s.slots, DeviceNames(current))
      <==> exists i | 0 <= i < |s.slots| :: DoPresenceDiff(s, current, at).slots[i].present != s.slots[i].present
  {
    forall i | 0 <= i < |s.slots|
      ensures DoPresenceDiff(s, current, at).slots[i].present == (s.slots[i].cfg.friendlyName in DeviceNames(current))
    {
      PresenceDoes(s, current, at, i);
    }
  }

  /** A second check with the same devices finds no change and changes nothing. */
  lemma PresenceSettles(s: State, current: seq<Device>, at: Attempts, again: Attempts)
    ensures var t := DoPresenceDiff(s, current, at);
      !PresenceDiffers(t.slots, DeviceNames(current)) && DoPresenceDiff(t, current, again) == t
  {
    var t := DoPresenceDiff(s, current, at);
    forall i | 0 <= i < |s.slots|
      ensures t.slots[i].present == Attached(current, s.slots[i].cfg.friendlyName)
      ensures DoPresenceDiff(t, current, again).slots[i] == t.slots[i]
    {
      PresenceDoes(s, current, at, i);
      PresenceDoes(t, current, again, i);
    }
    ChangeIsReported(t, current, again);
    assert DoPresenceDiff(t, current, again).slots == t.slots;
  }

  /** A camera that was unplugged stays down: the next tick makes no attempt to start
      it, and leaves it without viewers and noted as down. */
  lemma UnpluggedStaysDown(db: KnownDb, s: State, current: seq<Device>, at: Attempts, tick: Step, i: nat)
    requires i < |s.slots| && s.slots[i].present && !Attached(current, s.slots[i].cfg.friendlyName) && tick.Tick?
    ensures var t := DoPresenceDiff(s, current, at);
      && |Next(db, t, tick).slots| == |t.slots| == |s.slots|
      && var after := Next(db, t, tick).slots[i];
      && !after.running && !after.present && after.starts == t.slots[i].starts && after.viewerCount == 0
      && !after.lastRunning
  {
    var t := DoPresenceDiff(s, current, at);
    PresenceDoes(s, current, at, i);
    TickBooksStarts(t, tick, i);
    InactiveIsQuiet(t.slots[i], tick.now, t.stop, tick.at(i));
    hide DoPresenceDiff;
  }

  lemma InactiveIsQuiet(slot: CamSlot, now: int, stop: bool, a: Attempt)
    requires !slot.Active()
    ensures TickSlot(slot, now, stop, a).viewerCount == 0 && !TickSlot(slot, now, stop, a).lastRunning
  {
  }

  // ----- Discovery -----

  predicate Known(db: KnownDb, d: Device) {
    d.vidPid != "" && d.vidPid in db
  }

  /** What a camera just found is set to: each number and the mode come from its
      override file, or else from the known cameras, or else from what it advertises;
      of the modes only the two that the user interface offers are left. */
  predicate IsSetUp(cfg: CameraConfig, d: Device, formats: Formats, db: KnownDb, settings: Settings, files: Files) {
    var file := Load(files, d.name).GetOr(NOTHING);
    var mode := if file.mode.Some? then file.mode.value
                else if Known(db, d) then db[d.vidPid].mode else PickDefault(formats).mode;
    && cfg.friendlyName == d.name
    && cfg.width == (if file.width.Some? then file.width.value
                     else if Known(db, d) then db[d.vidPid].width else PickDefault(formats).width)
    && cfg.height == (if file.height.Some? then file.height.value
                      else if Known(db, d) then db[d.vidPid].height else PickDefault(formats).height)
    && cfg.fps == (if file.fps.Some? then file.fps.value
                   else if Known(db, d) then db[d.vidPid].fps else PickDefault(formats).fps)
    && cfg.enabled == (if file.enabled.Some? then file.enabled.value else settings.defaultEnabled)
    && ModeName(cfg.mode)
         == if mode == TranscodeRawToH264 then "transcode_raw_to_h264" else "transcode_mjpeg_to_h264"
  }

  /** A camera just found, and started if it is enabled. */
  predicate IsFound(slot: CamSlot, d: Device, formats: Formats, stop: bool, a: Attempt) {
    && slot.present && slot.vidPid == d.vidPid && slot.formats == formats && slot.viewerCount == 0
    && (if slot.cfg.enabled then IsNew(slot, stop, a)
        else !slot.running && slot.starts == [] && slot.backoff == Backoff(0, 0, 1000, 0))
  }

  lemma FoundIsSetUp(d: Device, path: string, formats: Formats, db: KnownDb, settings: Settings, files: Files,
      stop: bool, a: Attempt)
    ensures var slot := Launched(NewSlot(d, path, formats, db, settings, files), stop, a);
      IsSetUp(slot.cfg, d, formats, db, settings, files) && IsFound(slot, d, formats, stop, a)
      && slot.cfg.rtspPath == path && !slot.lastRunning
  {
    hide Load, PickDefault;
  }

  /** At startup every enumerated device becomes a camera so set up, in that order. */
  lemma BootDiscovers(db: KnownDb, o: Origin, j: nat)
    requires j < |o.devices|
    ensures var s := Boot(db, o);
      && |s.slots| == |o.devices| && s.settings == o.settings && s.files == o.files && !s.stop
      && s.mtxRunning == o.mtx.up && s.log == [] && s.outbox == []
      && IsSetUp(s.slots[j].cfg, o.devices[j], o.formats(j), db, o.settings, o.files)
      && IsFound(s.slots[j], o.devices[j], o.formats(j), false, o.at(j))
      && s.slots[j].lastRunning == s.slots[j].running && s.slots[j].cfg.rtspPath == "/webcam" + Decimal.ToString(j)
  {
    FoundIsSetUp(o.devices[j], Path(j), o.formats(j), db, o.settings, o.files, false, o.at(j));
    hide NewSlot, IsSetUp;
  }

  /** All that an append comes to: old slots as they were, and a camera set up and
      started for each new device, in order and under the next path. */
  ghost predicate IsAppended(s: State, db: KnownDb, added: seq<Device>, formats: Device -> Formats, at: Attempts,
                             slots: seq<CamSlot>)
  {
    && |slots| == |s.slots| + |added| && slots[..|s.slots|] == s.slots && SlotsOk(slots)
    && forall j: nat | |s.slots| <= j < |slots| ::
         var d := added[j - |s.slots|];
         && IsSetUp(slots[j].cfg, d, formats(d), db, s.settings, s.files)
         && IsFound(slots[j], d, formats(d), s.stop, at(j)) && !slots[j].lastRunning
  }

  lemma IsAppendedSnoc(s: State, db: KnownDb, added: seq<Device>, formats: Device -> Formats, at: Attempts,
                       front: seq<CamSlot>, d: Device, slot: CamSlot)
    requires IsAppended(s, db, added, formats, at, front) && SlotOk(slot) && slot.cfg.rtspPath == Path(|front|)
    requires IsSetUp(slot.cfg, d, formats(d), db, s.settings, s.files)
    requires IsFound(slot, d, formats(d), s.stop, at(|front|)) && !slot.lastRunning
    ensures IsAppended(s, db, added + [d], formats, at, front + [slot])
  {
    hide IsSetUp, IsFound, SlotOk, Path;
    assert (front + [slot])[..|s.slots|] == front[..|s.slots|];
  }

  lemma {:induction false} AppendSlotsDiscovers(s: State, db: KnownDb, names: set<string>, devices: seq<Device>,
                                                formats: Device -> Formats, at: Attempts)
    requires Inv(s)
    ensures IsAppended(s, db, Told.Fresh(names, devices), formats, at,
                       AppendSlots(s.slots, names, devices, formats, db, s.settings, s.files, s.stop, at))
  {
    hide IsSetUp, IsFound, SlotOk, Path, NewSlot, Launched;
    if devices != [] {
      var n := |devices| - 1;
      var d, front := devices[n], AppendSlots(s.slots, names, devices[..n], formats, db, s.settings, s.files, s.stop, at);
      AppendSlotsDiscovers(s, db, names, devices[..n], formats, at);
      PathsOfSlots(front);
      hide IsAppended;
      FoundIsSetUp(d, Path(|front|), formats(d), db, s.settings, s.files, s.stop, at(|front|));
      LaunchKeepsSlot(d, Path(|front|), formats(d), db, s.settings, s.files, s.stop, at(|front|));
      IsAppendedSnoc(s, db, Told.Fresh(names, devices[..n]), formats, at, front, d,
        Launched(NewSlot(d, Path(|front|), formats(d), db, s.settings, s.files), s.stop, at(|front|)));
      assert Told.Fresh(names, devices[..n]) + [] == Told.Fresh(names, devices[..n]);
    }
  }

  /** Hot-added devices whose names no camera has become cameras so set up, and the
      list that is published then describes all cameras. */
  lemma AppendDiscovers(db: KnownDb, s: State, devices: seq<Device>, formats: Device -> Formats, listChanged: bool,
                        at: Attempts)
    requires Inv(s)
    ensures var t := DoAppendNew(s, db, devices, formats, listChanged, at);
      var added := Told.Fresh(set slot | slot in s.slots :: slot.cfg.friendlyName, devices);
      && t == s.(slots := t.slots, log := t.log) && IsAppended(s, db, added, formats, at, t.slots)
      && (if listChanged || added != [] then |t.log| == |s.log| + 1 && s.log <= t.log && ListsAll(t.log[|s.log|], t.slots)
          else t.log == s.log)
  {
    AppendSlotsDiscovers(s, db, Names(s.slots), devices, formats, at);
    hide View, Describes, AppendSlots, SlotsOk, IsSetUp, IsFound, Told.Fresh;
    var t := DoAppendNew(s, db, devices, formats, listChanged, at);
    forall i | 0 <= i < |t.slots| ensures Describes(Views(t.slots)[i], t.slots[i]) { ViewDescribes(t.slots[i]); }
  }

  // ----- Settings and the stop flag -----

  lemma FlagIs(cfg: CameraConfig, d: Device, formats: Formats, db: KnownDb, settings: Settings, files: Files)
    requires IsSetUp(cfg, d, formats, db, settings, files)
    ensures Load(files, cfg.friendlyName).GetOr(NOTHING).enabled.None? ==> cfg.enabled == settings.defaultEnabled
  {
    hide Load, PickDefault;
  }

  lemma AppendedFlag(s: State, db: KnownDb, added: seq<Device>, formats: Device -> Formats, at: Attempts,
                     slots: seq<CamSlot>, j: nat)
    requires IsAppended(s, db, added, formats, at, slots) && |s.slots| <= j < |slots|
    requires Load(s.files, slots[j].cfg.friendlyName).GetOr(NOTHING).enabled.None?
    ensures slots[j].cfg.enabled == s.settings.defaultEnabled
  {
    hide IsSetUp, IsFound, SlotsOk, Load;
    var d := added[j - |s.slots|];
    FlagIs(slots[j].cfg, d, formats(d), db, s.settings, s.files);
  }

  lemma HotAddedFlag(db: KnownDb, s: State, devices: seq<Device>, formats: Device -> Formats, at: Attempts, j: nat)
    requires Inv(s)
    ensures var slots := DoAppendNew(s, db, devices, formats, false, at).slots;
      |s.slots| <= j < |slots| && Load(s.files, slots[j].cfg.friendlyName).GetOr(NOTHING).enabled.None? ==>
        slots[j].cfg.enabled == s.settings.defaultEnabled
  {
    var slots := DoAppendNew(s, db, devices, formats, false, at).slots;
    AppendSlotsDiscovers(s, db, Names(s.slots), devices, formats, at);
    var added := Told.Fresh(Names(s.slots), devices);
    assert IsAppended(s, db, added, formats, at, slots);
    hide DoAppendNew, AppendSlots, IsAppended, Load, SlotsOk, Names, Told.Fresh, Views;
    if |s.slots| <= j < |slots| && Load(s.files, slots[j].cfg.friendlyName).GetOr(NOTHING).enabled.None? {
      AppendedFlag(s, db, added, formats, at, slots, j);
    }
  }

  /** Settings that were loaded anew count for the cameras found after that. */
  lemma ReloadedSettingsCount(db: KnownDb, s: State, loaded: Settings, devices: seq<Device>,
                              formats: Device -> Formats, at: Attempts, j: nat)
    requires Inv(s)
    ensures var t := Next(db, s, ReloadSettings(loaded));
      && t == s.(settings := t.settings)
      && var u := DoAppendNew(t, db, devices, formats, false, at);
      |s.slots| <= j < |u.slots| && Load(s.files, u.slots[j].cfg.friendlyName).GetOr(NOTHING).enabled.None? ==>
        u.slots[j].cfg.enabled == loaded.defaultEnabled
  {
    hide DoAppendNew, Load, SlotsOk;
    HotAddedFlag(db, Next(db, s, ReloadSettings(loaded)), devices, formats, at, j);
  }

  /** A shutdown request sets the stop flag and nothing else; so from then on no step
      starts a child. */
  lemma ShutdownStopsStarts(db: KnownDb, s: State, step: Step)
    ensures var t := Next(db, s, Shutdown);
      t.stop && t == s.(stop := t.stop) && Gate.NoStart(t, Next(db, t, step))
  {
    var t := Next(db, s, Shutdown);
    assert t.stop;
    hide Next;
    Gate.NothingStartsAfterStop(db, t, step);
  }
}
