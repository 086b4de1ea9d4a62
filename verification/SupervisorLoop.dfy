/**
 The supervisor as the program runs it: handlers and loop phases that update
 the slots in place. Each is proved to do what its step function says.
 */
module SupervisorLoop {
  import opened Wrappers
  import opened CameraConfig
  import opened CameraFormats
  import opened OverrideFile
  import opened RestartBackoff
  import opened ViewerCount
  import opened PathAlloc
  import opened Supervisor

  method BookStart(b: Backoff, now: int) returns (r: Backoff)
    ensures r == Book(b, now)
  {
    r := b;
    if r.restarts > 0 && now - r.lastStart > 60000 {
      r := r.(delay := 1000, restarts := 0);
    }
    r := r.(lastStart := now);
    r := r.(restarts := r.restarts + 1);
    r := r.(earliestNext := now + r.delay);
    r := r.(delay := Min(r.delay * 2, 30000));
  }

  /** Field by field: the override file first, then the known cameras, then the
      advertised formats; a legacy mode is replaced. */
  method ResolveCameraConfig(cfg: CameraConfig, o: Option<CameraOverride>, known: Option<KnownCamera>,
                             smart: DefaultPick, defaultEnabled: bool) returns (r: CameraConfig)
    ensures var base := known.GetOr(KnownCamera(smart.mode, smart.width, smart.height, smart.fps));
      var ov := o.GetOr(NOTHING);
      r == cfg.(mode := Coerce(ov.mode.GetOr(base.mode)), width := ov.width.GetOr(base.width),
                height := ov.height.GetOr(base.height), fps := ov.fps.GetOr(base.fps),
                enabled := ov.enabled.GetOr(defaultEnabled))
  {
    r := cfg;
    if o.Some? && o.value.mode.Some? { r := r.(mode := o.value.mode.value); }
    else if known.Some? { r := r.(mode := known.value.mode); }
    else { r := r.(mode := smart.mode); }
    r := r.(width := if o.Some? && o.value.width.Some? then o.value.width.value
                     else if known.Some? then known.value.width else smart.width);
    r := r.(height := if o.Some? && o.value.height.Some? then o.value.height.value
                      else if known.Some? then known.value.height else smart.height);
    r := r.(fps := if o.Some? && o.value.fps.Some? then o.value.fps.value
                   else if known.Some? then known.value.fps else smart.fps);
    if r.mode != TranscodeMjpegToH264 && r.mode != TranscodeRawToH264 {
      r := r.(mode := TranscodeMjpegToH264);
    }
    r := r.(enabled := if o.Some? && o.value.enabled.Some? then o.value.enabled.value else defaultEnabled);
  }

  /** The override that a mode change asks for; sizes and rates of zero or less are left out. */
  method RequestedUpdate(mode: Mode, width: int, height: int, fps: int) returns (u: CameraOverride)
    ensures u == CameraOverride(Some(mode), Given(width), Given(height), Given(fps), None)
  {
    u := NOTHING.(mode := Some(mode));
    if width > 0 { u := u.(width := Some(width)); }
    if height > 0 { u := u.(height := Some(height)); }
    if fps > 0 { u := u.(fps := Some(fps)); }
  }

  method Reconfigure(cfg: CameraConfig, mode: Mode, u: CameraOverride) returns (r: CameraConfig)
    requires u.mode == Some(mode) && u.enabled.None?
    ensures r == Reconfigured(cfg, u)
  {
    r := cfg.(mode := mode);
    if u.width.Some? { r := r.(width := u.width.value); }
    if u.height.Some? { r := r.(height := u.height.value); }
    if u.fps.Some? { r := r.(fps := u.fps.value); }
  }

  class Program {
    const db: KnownDb
    const probes: ProbesDir
    var slots: seq<CamSlot>
    var mtxRunning: bool
    var mtxBackoff: Backoff
    var settings: Settings
    var stop: bool
    var log: seq<Event>
    var outbox: seq<Event>
    var mtxStarts: seq<int>

    ghost function Snapshot(): State
      reads this, probes
    {
      State(slots, mtxRunning, mtxBackoff, settings, probes.files, stop, log, outbox, mtxStarts)
    }

    constructor (db: KnownDb, probes: ProbesDir, o: Origin)
      requires probes.files == o.files
      ensures this.db == db && this.probes == probes
      ensures Snapshot() == Boot(db, o)
    {
      this.db, this.probes, this.settings := db, probes, o.settings;
      this.slots, this.stop, this.log, this.outbox := [], false, [], [];
      this.mtxRunning := o.mtx.up;
      this.mtxBackoff := Book(FRESH, o.mtx.at);
      this.mtxStarts := [o.mtx.at];
      new;
      hide NewSlot, Launched, Path;
      for i := 0 to |o.devices|
        invariant this.db == db && this.probes == probes && probes.files == o.files && settings == o.settings
        invariant !stop && log == [] && outbox == []
        invariant mtxRunning == o.mtx.up && mtxBackoff == Book(FRESH, o.mtx.at) && mtxStarts == [o.mtx.at]
        invariant |slots| == i && forall k | 0 <= k < i :: slots[k] == BootSlot(db, o, k)
      {
        AddCamera(o.devices[i], Path(i), o.formats(i), o.at(i));
        slots := slots[i := slots[i].(lastRunning := slots[i].running)];
      }
      assert slots == Boot(db, o).slots;
    }

    /** A new slot at the end, started if it is enabled. */
    method AddCamera(d: Device, path: string, formats: Formats, a: Attempt)
      modifies this`slots
      ensures slots == old(slots) + [Launched(NewSlot(d, path, formats, db, settings, probes.files), stop, a)]
    {
      var s := Discover(d, path, formats);
      slots := slots + [s];
      if s.cfg.enabled { StartSlot(|slots| - 1, a); }
    }

    method StartSlot(i: nat, a: Attempt)
      requires i < |slots|
      modifies this`slots
      ensures slots == old(slots)[i := StartNoSleep(old(slots[i]), stop, a)]
    {
      if stop { return; }
      var b := BookStart(slots[i].backoff, a.at);
      slots := slots[i := slots[i].(backoff := b, starts := slots[i].starts + [a.at], running := a.up)];
    }

    method RebuildSlot(i: nat)
      requires i < |slots|
      modifies this`slots
      ensures slots == old(slots)[i := Rebuild(old(slots[i]))]
    {
      slots := slots[i := slots[i].(running := false)];
      slots := slots[i := slots[i].(backoff := FRESH, starts := [])];
      slots := slots[i := slots[i].(viewerCount := 0, reports := [])];
    }

    /** What three handlers do to a slot. */
    method RestartSlot(i: nat, a: Attempt)
      requires i < |slots|
      modifies this`slots
      ensures slots == old(slots)[i := Restarted(old(slots[i]), stop, a)]
    {
      slots := slots[i := slots[i].(running := false)];
      RebuildSlot(i);
      StartSlot(i, a);
    }

    method StartMediaMtx(a: Attempt)
      modifies this`mtxRunning, this`mtxBackoff, this`mtxStarts
      ensures Snapshot() == StartMtx(old(Snapshot()), a)
    {
      mtxRunning := false;
      if stop { return; }
      mtxBackoff := BookStart(mtxBackoff, a.at);
      mtxStarts := mtxStarts + [a.at];
      mtxRunning := a.up;
    }

    method Discover(d: Device, path: string, formats: Formats) returns (s: CamSlot)
      ensures s == NewSlot(d, path, formats, db, settings, probes.files)
    {
      var cfg := CameraConfig(d.name, path, TranscodeMjpegToH264, 640, 480, 30, true);
      var o := probes.LoadOverride(d.name);
      var known := if d.vidPid != "" && d.vidPid in db then Some(db[d.vidPid]) else None;
      var smart := PickDefaultFromFormats(formats);
      cfg := ResolveCameraConfig(cfg, o, known, smart, settings.defaultEnabled);
      s := CamSlot(cfg, false, FRESH, false, true, 0, formats, d.vidPid, [], [], o.GetOr(NOTHING).enabled);
    }

    // ----- Phase 1 -----

    /** What clients see of a slot does not include what they were last told. */
    lemma ViewWithout(s: CamSlot, lastRunning: bool)
      ensures View(s.(lastRunning := lastRunning)) == View(s)
    {
    }

    method TickCamera(i: nat, now: int, a: Attempt)
      requires i < |slots|
      modifies this`slots, this`log
      ensures slots == old(slots)[i := TickSlot(old(slots[i]), now, stop, a)]
      ensures log == old(log) + TickEvents(old(slots[i]), now, stop, a)
    {
      hide View;
      if !slots[i].present || !slots[i].cfg.enabled {
        if slots[i].lastRunning || slots[i].viewerCount != 0 {
          slots := slots[i := slots[i].(lastRunning := false)];
          slots := slots[i := slots[i].(viewerCount := 0, reports := [])];
          log := log + [CameraStateChanged(View(slots[i]))];
        }
        return;
      }
      var runningNow := slots[i].running;
      if !runningNow && slots[i].viewerCount != 0 {
        slots := slots[i := slots[i].(viewerCount := 0, reports := [])];
      }
      if !runningNow && now >= slots[i].backoff.earliestNext {
        slots := slots[i := slots[i].(running := false)];
        StartSlot(i, a);
        runningNow := slots[i].running;
      }
      ViewWithout(slots[i], runningNow);
      if runningNow != slots[i].lastRunning {
        log := log + [CameraStateChanged(View(slots[i]))];
        slots := slots[i := slots[i].(lastRunning := runningNow)];
      }
    }

    method TickCameras(now: int, at: Attempts)
      modifies this`slots, this`log
      ensures slots == TickSlots(old(slots), now, stop, at)
      ensures log == old(log) + TickLog(old(slots), now, stop, at)
    {
      hide TickSlot, TickEvents;
      ghost var s0, log0 := slots, log;
      for i := 0 to |slots|
        modifies this`slots, this`log
        invariant |slots| == |s0|
        invariant forall k | 0 <= k < i :: slots[k] == TickSlot(s0[k], now, stop, at(k))
        invariant forall k | i <= k < |s0| :: slots[k] == s0[k]
        invariant log == log0 + TickLog(s0[..i], now, stop, at)
      {
        assert s0[..i + 1][..i] == s0[..i];
        TickCamera(i, now, at(i));
      }
      assert s0[..|s0|] == s0;
    }

    method Tick(now: int, mtx: Attempt, at: Attempts)
      modifies this
      ensures Snapshot() == DoTick(old(Snapshot()), now, mtx, at)
    {
      if !mtxRunning && now >= mtxBackoff.earliestNext {
        StartMediaMtx(mtx);
        log := log + [MediaMtxStateChanged(mtxRunning)];
      }
      TickCameras(now, at);
    }

    // ----- Control-pipe handlers -----

    method FindSlot(name: string) returns (i: nat)
      ensures i == FindName(slots, name)
    {
      i := 0;
      while i < |slots| && slots[i].cfg.friendlyName != name
        invariant i <= |slots| && forall j | 0 <= j < i :: slots[j].cfg.friendlyName != name
      {
        i := i + 1;
      }
    }

    /** Tell the clients, then note what they were told. */
    method AnnounceSlot(i: nat)
      requires i < |slots|
      modifies this`slots, this`log
      ensures Snapshot() == Announce(old(Snapshot()), i, old(slots[i]))
    {
      log := log + [CameraStateChanged(View(slots[i]))];
      slots := slots[i := slots[i].(lastRunning := slots[i].running)];
    }

    method RestartCamera(name: string, a: Attempt) returns (ok: bool)
      modifies this
      ensures ok == (name != "" && FindName(old(slots), name) < |old(slots)|)
      ensures Snapshot() == DoRestartCamera(old(Snapshot()), name, a)
    {
      if name == "" { return false; }
      hide Restarted, View, FindName;
      var i := FindSlot(name);
      if i == |slots| { return false; }
      RestartSlot(i, a);
      AnnounceSlot(i);
      return true;
    }

    method SetMode(name: string, mode: string, width: int, height: int, fps: int, writable: bool, a: Attempt)
        returns (ok: bool)
      modifies this, probes
      ensures ok == (name != "" && ModeFromString(mode) != Unknown && FindName(old(slots), name) < |old(slots)|)
      ensures Snapshot() == DoSetMode(old(Snapshot()), name, mode, width, height, fps, writable, a)
    {
      var parsed := ModeFromString(mode);
      var upd := RequestedUpdate(parsed, width, height, fps);
      hide Restarted, View, FindName, ModeFromString, Given, Reconfigured, Saved;
      if name == "" || parsed == Unknown { return false; }
      var i := FindSlot(name);
      if i == |slots| { return false; }
      var cfg := Reconfigure(slots[i].cfg, parsed, upd);
      slots := slots[i := slots[i].(cfg := cfg)];
      var saved := probes.SaveOverride(name, upd, writable);
      RestartSlot(i, a);
      AnnounceSlot(i);
      return true;
    }

    method SetStreamEnabled(name: string, enabled: Option<bool>, writable: bool, a: Attempt) returns (ok: bool)
      modifies this, probes
      ensures ok == (name != "" && enabled.Some? && FindName(old(slots), name) < |old(slots)|)
      ensures Snapshot() == DoSetStreamEnabled(old(Snapshot()), name, enabled, writable, a)
    {
      hide Restarted, View, FindName, Saved, Synced;
      if name == "" || enabled.None? { return false; }
      var i := FindSlot(name);
      if i == |slots| { return false; }
      var want := enabled.value;
      var saved := probes.SaveOverride(name, NOTHING.(enabled := Some(want)), writable);
      slots := slots[i := slots[i].(cfg := slots[i].cfg.(enabled := want), chosen := Some(want))];
      if want {
        if slots[i].present { RestartSlot(i, a); }
      } else {
        slots := slots[i := slots[i].(running := false)];
      }
      AnnounceSlot(i);
      return true;
    }

    method SetViewerCredentials(user: string, pass: string, saved: bool, written: bool, a: Attempt) returns (ok: bool)
      modifies this
      ensures ok == (user != "" && pass != "" && saved && written)
      ensures Snapshot() == DoSetViewerCredentials(old(Snapshot()), user, pass, saved, written, a)
    {
      if user == "" || pass == "" { return false; }
      settings := settings.(viewerUser := user);
      settings := settings.(viewerPass := pass);
      if !saved || !written { return false; }
      StartMediaMtx(a);
      log := log + [MediaMtxStateChanged(mtxRunning)];
      log := log + [CamerasChanged(Views(slots))];
      return true;
    }

    // ----- Events pipe -----

    method FindSlotByPath(path: string) returns (i: nat)
      ensures i == FindPath(slots, path)
    {
      i := 0;
      while i < |slots| && HookPath(slots[i].cfg.rtspPath) != path
        invariant i <= |slots| && forall j | 0 <= j < i :: HookPath(slots[j].cfg.rtspPath) != path
      {
        i := i + 1;
      }
    }

    method CountReport(i: nat, e: ViewerEvent)
      requires i < |slots|
      modifies this`slots
      ensures slots == old(slots)[i := Counted(old(slots[i]), e)]
    {
      if e.Read? {
        slots := slots[i := slots[i].(viewerCount := slots[i].viewerCount + 1)];
      } else if slots[i].viewerCount > 0 {
        slots := slots[i := slots[i].(viewerCount := slots[i].viewerCount - 1)];
      }
      slots := slots[i := slots[i].(reports := slots[i].reports + [e])];
    }

    /** The section under the lock: the slot is counted, and the events are composed. */
    method OnViewerHook(kind: string, path: string)
      modifies this
      ensures Snapshot() == DoViewerHook(old(Snapshot()), kind, path)
    {
      var e := ReportOf(kind);
      if e.None? { return; }
      var i := FindSlotByPath(path);
      if i == |slots| {
        outbox := outbox + [ViewerChanged(e.value.Read?, "/" + path, path)];
        return;
      }
      CountReport(i, e.value);
      outbox := outbox + [ViewerChanged(e.value.Read?, "/" + path, slots[i].cfg.friendlyName),
                          CameraStateChanged(View(slots[i]))];
    }

    /** After the lock is released: one composed event is published. */
    method PublishNext()
      modifies this`log, this`outbox
      ensures Snapshot() == DoPublishNext(old(Snapshot()))
    {
      if outbox == [] { return; }
      log := log + [outbox[0]];
      outbox := outbox[1..];
    }

    // ----- Phase 2 -----

    method PresenceCamera(i: nat, here: bool, a: Attempt) returns (changed: bool)
      requires i < |slots|
      modifies this`slots
      ensures slots == old(slots)[i := PresenceSlot(old(slots[i]), here, stop, a)]
      ensures changed == (old(slots[i].present) != here)
    {
      if slots[i].present && !here {
        slots := slots[i := slots[i].(present := false)];
        slots := slots[i := slots[i].(running := false)];
        return true;
      } else if !slots[i].present && here {
        slots := slots[i := slots[i].(present := true)];
        if slots[i].cfg.enabled {
          RebuildSlot(i);
          StartSlot(i, a);
        }
        return true;
      }
      return false;
    }

    method UpdatePresence(here: set<string>, at: Attempts) returns (listChanged: bool)
      modifies this`slots
      ensures slots == PresenceSlots(old(slots), here, stop, at)
      ensures listChanged == PresenceDiffers(old(slots), here)
    {
      ghost var s0 := slots;
      listChanged := false;
      for i := 0 to |slots|
        modifies this`slots
        invariant |slots| == |s0|
        invariant forall k | 0 <= k < i :: slots[k] == PresenceSlot(s0[k], s0[k].cfg.friendlyName in here, stop, at(k))
        invariant forall k | i <= k < |s0| :: slots[k] == s0[k]
        invariant listChanged == PresenceDiffers(s0[..i], here)
      {
        assert s0[..i + 1] == s0[..i] + [s0[i]];
        var changed := PresenceCamera(i, slots[i].cfg.friendlyName in here, at(i));
        listChanged := listChanged || changed;
      }
      assert s0[..|s0|] == s0;
    }

    /** Presence of the known cameras, and which devices are new. */
    method DiffPresence(current: seq<Device>, at: Attempts) returns (newDevices: seq<Device>, listChanged: bool)
      modifies this`slots
      ensures Snapshot() == DoPresenceDiff(old(Snapshot()), current, at)
      ensures listChanged == PresenceDiffers(old(slots), DeviceNames(current))
      ensures forall d :: d in newDevices <==> d in current && d.name !in Names(old(slots))
    {
      var known := Names(slots);
      listChanged := UpdatePresence(DeviceNames(current), at);
      newDevices := [];
      for k := 0 to |current|
        invariant forall d :: d in newDevices <==> d in current[..k] && d.name !in known
      {
        assert current[..k + 1] == current[..k] + [current[k]];
        if current[k].name !in known { newDevices := newDevices + [current[k]]; }
      }
      assert current[..|current|] == current;
    }

    method AppendDevices(devices: seq<Device>, formats: Device -> Formats, at: Attempts) returns (added: bool)
      modifies this`slots
      ensures slots == AppendSlots(old(slots), Names(old(slots)), devices, formats, db, settings, probes.files, stop, at)
      ensures |slots| >= |old(slots)| && added == (|slots| > |old(slots)|)
    {
      var known := Names(slots);
      ghost var s0 := slots;
      added := false;
      for k := 0 to |devices|
        modifies this`slots
        invariant slots == AppendSlots(s0, known, devices[..k], formats, db, settings, probes.files, stop, at)
        invariant |slots| >= |s0| && added == (|slots| > |s0|)
      {
        assert devices[..k + 1][..k] == devices[..k];
        if devices[k].name !in known {
          var p, index := AllocPath(Paths(slots));
          AddCamera(devices[k], p, formats(devices[k]), at(|slots|));
          added := true;
        }
      }
      assert devices[..|devices|] == devices;
    }

    method AppendCameras(devices: seq<Device>, formats: Device -> Formats, listChanged: bool, at: Attempts)
      modifies this
      ensures Snapshot() == DoAppendNew(old(Snapshot()), db, devices, formats, listChanged, at)
    {
      if devices == [] && !listChanged { return; }
      var added := AppendDevices(devices, formats, at);
      if listChanged || added { log := log + [CamerasChanged(Views(slots))]; }
    }

    // ----- Shutdown -----

    method StopCameras()
      modifies this`slots
      ensures slots == Stopped(old(slots))
    {
      ghost var s0 := slots;
      for i := 0 to |slots|
        modifies this`slots
        invariant |slots| == |s0|
        invariant forall k | 0 <= k < i :: slots[k] == s0[k].(running := false)
        invariant forall k | i <= k < |s0| :: slots[k] == s0[k]
      {
        slots := slots[i := slots[i].(running := false)];
      }
    }

    method FinishAll()
      modifies this
      ensures Snapshot() == DoFinalSweep(old(Snapshot()))
    {
      StopCameras();
      mtxRunning := false;
    }
  }
}
