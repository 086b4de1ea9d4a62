/** What clients were last told about a camera, against what the supervisor notes as
    told and what the camera's process does. */
module SupervisorTold {
  import opened Wrappers
  import opened Folds
  import opened CameraConfig
  import CameraFormats
  import opened OverrideFile
  import PathAlloc
  import opened Supervisor
  import opened SupervisorRuns
  import opened SupervisorGate
  import opened SupervisorRecovery

  /** The running state that a list gives; of two elements with one name, clients keep the later. */
  function Listed(cams: seq<CamView>, name: string): Option<bool> {
    if cams == [] then None
    else
      var n := |cams| - 1;
      if cams[n].name == name then Some(cams[n].running) else Listed(cams[..n], name)
  }

  /** The running state that an event tells of this camera, if any. */
  function ToldBy(e: Event, name: string): Option<bool> {
    match e
    case CameraStateChanged(cam) => if cam.name == name then Some(cam.running) else None
    case CamerasChanged(cams) => Listed(cams, name)
    case _ => None
  }

  /** The running state that was told last. */
  function LastTold(log: seq<Event>, name: string): Option<bool> {
    if log == [] then None
    else ToldBy(log[|log| - 1], name).Else(LastTold(log[..|log| - 1], name))
  }

  function SlotTold(s: State, i: nat): Option<bool>
    requires i < |s.slots|
  {
    LastTold(s.log, s.slots[i].cfg.friendlyName)
  }

  predicate DistinctCameras(slots: seq<CamSlot>) {
    forall i, j | 0 <= i < j < |slots| :: slots[i].cfg.friendlyName != slots[j].cfg.friendlyName
  }

  predicate KnownName(slots: seq<CamSlot>, name: string) {
    exists i | 0 <= i < |slots| :: slots[i].cfg.friendlyName == name
  }

  // ----- What a step does to a camera that has a slot -----

  /** The state that a handler announces for slot i, if it does. */
  function Announced(s: State, step: Step, i: nat): Option<bool>
    requires i < |s.slots|
  {
    match step
    case RestartCamera(name, a) =>
      if name != "" && FindName(s.slots, name) == i then Some(!s.stop && a.up) else None
    case SetMode(name, mode, _, _, _, _, a) =>
      if name != "" && ModeFromString(mode) != Unknown && FindName(s.slots, name) == i
      then Some(!s.stop && a.up) else None
    case SetStreamEnabled(name, enabled, _, a) =>
      if name == "" || enabled.None? || FindName(s.slots, name) != i then None
      else if !enabled.value then Some(false)
      else if s.slots[i].present then Some(!s.stop && a.up)
      else Some(s.slots[i].running)
    case _ => None
  }

  /** Whether its process runs afterwards. */
  function RunsAfter(s: State, step: Step, i: nat): bool
    requires i < |s.slots|
  {
    var slot := s.slots[i];
    match step
    case Tick(now, _, at) =>
      slot.running || (slot.Active() && !s.stop && now >= slot.backoff.earliestNext && at(i).up)
    case PresenceDiff(current, at) =>
      var here := slot.cfg.friendlyName in DeviceNames(current);
      if slot.present && !here then false
      else if !slot.present && here && slot.cfg.enabled then !s.stop && at(i).up
      else slot.running
    case Crash(j) => slot.running && j != i
    case FinalSweep => false
    case _ => Announced(s, step, i).GetOr(slot.running)
  }

  /** What it notes as told afterwards. */
  function NotesAfter(s: State, step: Step, i: nat): bool
    requires i < |s.slots|
  {
    if step.Tick? then s.slots[i].Active() && RunsAfter(s, step, i)
    else Announced(s, step, i).GetOr(s.slots[i].lastRunning)
  }

  predicate NewAmong(slots: seq<CamSlot>, devices: seq<Device>) {
    exists d | d in devices :: d.name !in Names(slots)
  }

  /** A list of all cameras is published. */
  predicate Lists(s: State, step: Step) {
    match step
    case SetViewerCredentials(user, pass, saved, written, _) => user != "" && pass != "" && saved && written
    case AppendNew(devices, _, listChanged, _) => listChanged || NewAmong(s.slots, devices)
    case _ => false
  }

  /** What clients are told of it. */
  function Tells(s: State, step: Step, i: nat): Option<bool>
    requires i < |s.slots|
  {
    var slot := s.slots[i];
    if step.Tick? then
      if if slot.Active() then RunsAfter(s, step, i) != slot.lastRunning else slot.lastRunning || slot.viewerCount != 0
      then Some(RunsAfter(s, step, i)) else None
    else if step.PublishNext? then
      if s.outbox == [] then None else ToldBy(s.outbox[0], slot.cfg.friendlyName)
    else if Lists(s, step) then Some(slot.running)
    else Announced(s, step, i)
  }

  lemma LastToldSnoc(log: seq<Event>, e: Event, name: string)
    ensures LastTold(log + [e], name) == ToldBy(e, name).Else(LastTold(log, name))
  {
    assert (log + [e])[..|log|] == log;
  }

  lemma {:induction false} LastToldConcat(a: seq<Event>, b: seq<Event>, name: string)
    ensures LastTold(a + b, name) == LastTold(b, name).Else(LastTold(a, name))
  {
    if b == [] {
      assert a + b == a;
    } else {
      var n := |b| - 1;
      LastToldConcat(a, b[..n], name);
      assert (a + b)[..|a| + n] == a + b[..n];
    }
  }

  lemma {:induction false} ListedViews(slots: seq<CamSlot>, name: string)
    requires DistinctCameras(slots)
    ensures forall i | 0 <= i < |slots| && slots[i].cfg.friendlyName == name ::
      Listed(Views(slots), name) == Some(slots[i].running)
  {
    if slots != [] {
      var n := |slots| - 1;
      assert Views(slots)[..n] == Views(slots[..n]);
      ListedViews(slots[..n], name);
    }
  }

  lemma {:induction false} ListedIsKnown(slots: seq<CamSlot>, name: string)
    ensures Listed(Views(slots), name).Some? ==> KnownName(slots, name)
  {
    if slots != [] {
      var n := |slots| - 1;
      assert Views(slots)[..n] == Views(slots[..n]);
      ListedIsKnown(slots[..n], name);
    }
  }

  // ----- Each step's part -----

  lemma AnnounceTells(s: State, i: nat, slot: CamSlot, j: nat)
    requires DistinctCameras(s.slots) && i < |s.slots| && j < |s.slots|
    requires slot.cfg.friendlyName == s.slots[i].cfg.friendlyName
    ensures var t := Announce(s, i, slot);
      && |t.slots| == |s.slots| && t.slots[j].cfg.friendlyName == s.slots[j].cfg.friendlyName
      && t.slots[j].running == (if i == j then slot.running else s.slots[j].running)
      && t.slots[j].lastRunning == (if i == j then slot.running else s.slots[j].lastRunning)
      && SlotTold(t, j) == if i == j then Some(slot.running) else SlotTold(s, j)
  {
    hide LastTold;
    LastToldSnoc(s.log, CameraStateChanged(View(slot)), s.slots[j].cfg.friendlyName);
  }

  /** A step that tells nothing of a camera's state. */
  predicate NoState(es: seq<Event>) {
    forall i | 0 <= i < |es| :: es[i].MediaMtxStateChanged? || es[i].ViewerChanged?
  }

  lemma {:induction false} NoStateTold(es: seq<Event>, name: string)
    requires NoState(es)
    ensures LastTold(es, name).None?
  {
    if es != [] { NoStateTold(es[..|es| - 1], name); }
  }

  lemma RestartedRuns(slot: CamSlot, stop: bool, a: Attempt)
    ensures var t := Restarted(slot, stop, a); t.cfg == slot.cfg && t.running == (!stop && a.up)
  {
  }

  /** What the three handlers do to slot j. */
  predicate Follows(s: State, t: State, step: Step, j: nat)
    requires j < |s.slots|
  {
    && |t.slots| >= |s.slots|
    && t.slots[j].cfg.friendlyName == s.slots[j].cfg.friendlyName
    && t.slots[j].running == RunsAfter(s, step, j) && t.slots[j].lastRunning == NotesAfter(s, step, j)
    && SlotTold(t, j) == Tells(s, step, j).Else(SlotTold(s, j))
  }

  predicate IsHandler(step: Step) {
    step.RestartCamera? || step.SetMode? || step.SetStreamEnabled?
  }

  lemma RefusedFollows(s: State, step: Step, j: nat)
    requires IsHandler(step) && j < |s.slots| && Announced(s, step, j).None?
    ensures Follows(s, s, step, j)
  {
    hide SlotTold;
  }

  lemma HandlerFollows(s: State, step: Step, i: nat, slot: CamSlot, files: Files, j: nat)
    requires IsHandler(step) && DistinctCameras(s.slots) && i < |s.slots| && j < |s.slots|
    requires slot.cfg.friendlyName == s.slots[i].cfg.friendlyName
    requires Announced(s, step, j) == if i == j then Some(slot.running) else None
    ensures Follows(s, Announce(s, i, slot).(files := files), step, j)
  {
    hide Announce, Announced, LastTold;
    AnnounceTells(s, i, slot, j);
  }

  lemma RestartTells(s: State, step: Step, j: nat)
    requires step.RestartCamera? && DistinctCameras(s.slots) && j < |s.slots|
    ensures Follows(s, DoRestartCamera(s, step.name, step.a), step, j)
  {
    hide Restarted, FindName, DistinctCameras, Follows, View;
    var i := FindName(s.slots, step.name);
    if i < |s.slots| && step.name != "" {
      var t := Announce(s, i, Restarted(s.slots[i], s.stop, step.a));
      assert t == t.(files := s.files);
      RestartedRuns(s.slots[i], s.stop, step.a);
      HandlerFollows(s, step, i, Restarted(s.slots[i], s.stop, step.a), s.files, j);
    } else {
      RefusedFollows(s, step, j);
    }
  }

  lemma SetModeTells(s: State, step: Step, j: nat)
    requires step.SetMode? && DistinctCameras(s.slots) && j < |s.slots|
    ensures var t := DoSetMode(s, step.name, step.mode, step.width, step.height, step.fps, step.writable, step.a);
      Follows(s, t, step, j)
  {
    hide Announce, Restarted, FindName, DistinctCameras, Follows, Stored, ModeFromString, ModeUpdate;
    var i, u := FindName(s.slots, step.name), ModeUpdate(step.mode, step.width, step.height, step.fps);
    if i < |s.slots| && step.name != "" && ModeFromString(step.mode) != Unknown {
      var slot := s.slots[i].(cfg := Reconfigured(s.slots[i].cfg, u));
      RestartedRuns(slot, s.stop, step.a);
      HandlerFollows(s, step, i, Restarted(slot, s.stop, step.a), Stored(s.files, step.name, u, step.writable), j);
    } else {
      RefusedFollows(s, step, j);
    }
  }

  lemma SwitchTells(s: State, step: Step, j: nat)
    requires step.SetStreamEnabled? && DistinctCameras(s.slots) && j < |s.slots|
    ensures Follows(s, DoSetStreamEnabled(s, step.name, step.enabled, step.writable, step.a), step, j)
  {
    hide Announce, Switched, FindName, DistinctCameras, Follows, Stored;
    var i := FindName(s.slots, step.name);
    if i < |s.slots| && step.name != "" && step.enabled.Some? {
      SwitchedRuns(s.slots[i], step.enabled.value, s.stop, step.a);
      HandlerFollows(s, step, i, Switched(s.slots[i], step.enabled.value, s.stop, step.a),
                     Stored(s.files, step.name, EnabledUpdate(step.enabled.value), step.writable), j);
    } else {
      RefusedFollows(s, step, j);
    }
  }

  lemma SwitchedRuns(slot: CamSlot, want: bool, stop: bool, a: Attempt)
    ensures var t := Switched(slot, want, stop, a);
      && t.cfg.friendlyName == slot.cfg.friendlyName
      && t.running == if !want then false else if slot.present then !stop && a.up else slot.running
  {
  }

  /** A list tells of each slot what its process does. */
  lemma ListTells(log: seq<Event>, slots: seq<CamSlot>, j: nat)
    requires DistinctCameras(slots) && j < |slots|
    ensures LastTold(log + [CamerasChanged(Views(slots))], slots[j].cfg.friendlyName) == Some(slots[j].running)
  {
    hide Views, LastTold, Listed;
    LastToldSnoc(log, CamerasChanged(Views(slots)), slots[j].cfg.friendlyName);
    ListedViews(slots, slots[j].cfg.friendlyName);
  }

  lemma CredentialsTell(s: State, step: Step, j: nat)
    requires step.SetViewerCredentials? && DistinctCameras(s.slots) && j < |s.slots|
    ensures Follows(s, DoSetViewerCredentials(s, step.user, step.pass, step.saved, step.written, step.a), step, j)
  {
    hide Views, LastTold, DistinctCameras, DeviceNames, ModeFromString, NewAmong, ToldBy, FindName;
    if Lists(s, step) {
      var m := MediaMtxStateChanged(StartMtx(s, step.a).mtxRunning);
      var t := DoSetViewerCredentials(s, step.user, step.pass, step.saved, step.written, step.a);
      assert t.log == s.log + [m] + [CamerasChanged(Views(s.slots))];
      ListTells(s.log + [m], s.slots, j);
    }
  }

  // ----- New cameras -----

  /** The devices among these that are new. */
  function Fresh(known: set<string>, devices: seq<Device>): seq<Device> {
    if devices == [] then []
    else
      var n := |devices| - 1;
      Fresh(known, devices[..n]) + if devices[n].name in known then [] else [devices[n]]
  }

  /** The enabled flag that a new camera gets. */
  function EnabledFlag(s: State, name: string): bool {
    Load(s.files, name).GetOr(NOTHING).enabled.GetOr(s.settings.defaultEnabled)
  }

  /** The m-th new device of a step comes up at once. */
  predicate ComesUp(s: State, step: Step, m: nat)
    requires step.AppendNew? && m < |Fresh(Names(s.slots), step.devices)|
  {
    EnabledFlag(s, Fresh(Names(s.slots), step.devices)[m].name) && !s.stop && step.at(|s.slots| + m).up
  }

  lemma LaunchedRuns(s: State, d: Device, path: string, formats: CameraFormats.Formats, db: KnownDb, a: Attempt)
    ensures var slot := Launched(NewSlot(d, path, formats, db, s.settings, s.files), s.stop, a);
      && slot.cfg.friendlyName == d.name && !slot.lastRunning
      && slot.running == (EnabledFlag(s, d.name) && !s.stop && a.up)
  {
    hide Load, CameraFormats.PickDefault, Coerce;
  }

  /** The old slots, and one for each new device. */
  predicate Appended(s: State, added: seq<Device>, at: Attempts, r: seq<CamSlot>) {
    && |r| == |s.slots| + |added| && r[..|s.slots|] == s.slots
    && forall j: nat | |s.slots| <= j < |r| ::
         && r[j].cfg.friendlyName == added[j - |s.slots|].name && !r[j].lastRunning
         && r[j].running == (EnabledFlag(s, added[j - |s.slots|].name) && !s.stop && at(j).up)
  }

  lemma {:induction false} AppendedAre(s: State, known: set<string>, devices: seq<Device>,
      formats: Device -> CameraFormats.Formats, db: KnownDb, at: Attempts)
    ensures Appended(s, Fresh(known, devices), at,
                     AppendSlots(s.slots, known, devices, formats, db, s.settings, s.files, s.stop, at))
  {
    if devices != [] {
      var n := |devices| - 1;
      var d := devices[n];
      AppendedAre(s, known, devices[..n], formats, db, at);
      hide Appended, Launched, NewSlot, PathAlloc.AllocatedPath, Paths;
      var front := AppendSlots(s.slots, known, devices[..n], formats, db, s.settings, s.files, s.stop, at);
      var slot := Launched(NewSlot(d, PathAlloc.AllocatedPath(Paths(front)), formats(d), db, s.settings, s.files),
                           s.stop, at(|front|));
      LaunchedRuns(s, d, PathAlloc.AllocatedPath(Paths(front)), formats(d), db, at(|front|));
      AppendedSnoc(s, Fresh(known, devices[..n]), at, front, d, slot);
      assert Fresh(known, devices[..n]) + [] == Fresh(known, devices[..n]);
    }
  }

  lemma AppendedSnoc(s: State, added: seq<Device>, at: Attempts, front: seq<CamSlot>, d: Device, slot: CamSlot)
    requires Appended(s, added, at, front) && slot.cfg.friendlyName == d.name && !slot.lastRunning
    requires slot.running == (EnabledFlag(s, d.name) && !s.stop && at(|front|).up)
    ensures Appended(s, added + [d], at, front + [slot])
  {
    hide EnabledFlag;
    assert (front + [slot])[..|s.slots|] == front[..|s.slots|];
  }

  lemma {:induction false} FreshExactly(known: set<string>, devices: seq<Device>)
    ensures Fresh(known, devices) != [] <==> exists d | d in devices :: d.name !in known
  {
    if devices != [] {
      var n := |devices| - 1;
      FreshExactly(known, devices[..n]);
      assert devices == devices[..n] + [devices[n]];
    }
  }

  /** An append leaves the old slots, publishes a list exactly if it says so, and
      that list tells of every slot what its process does. */
  predicate ListsAppended(s: State, t: State, step: Step)
    requires step.AppendNew?
  {
    var added := Fresh(Names(s.slots), step.devices);
    && |t.slots| == |s.slots| + |added| && t.slots[..|s.slots|] == s.slots
    && (!Lists(s, step) ==> added == [] && t.log == s.log)
    && (Lists(s, step) ==> forall j: nat | j < |t.slots| :: SlotTold(t, j) == Some(t.slots[j].running))
    && forall j: nat | |s.slots| <= j < |t.slots| ::
         !t.slots[j].lastRunning && t.slots[j].running == ComesUp(s, step, j - |s.slots|)
  }

  lemma AppendTells(db: KnownDb, s: State, step: Step)
    requires step.AppendNew? && DistinctCameras(Next(db, s, step).slots)
    ensures ListsAppended(s, Next(db, s, step), step)
  {
    AppendPublishes(db, s, step);
    hide DoAppendNew, ListsAppended, DistinctCameras;
  }

  lemma AppendPublishes(db: KnownDb, s: State, step: Step)
    requires step.AppendNew?
    requires DistinctCameras(DoAppendNew(s, db, step.devices, step.formats, step.listChanged, step.at).slots)
    ensures ListsAppended(s, DoAppendNew(s, db, step.devices, step.formats, step.listChanged, step.at), step)
  {
    var t := DoAppendNew(s, db, step.devices, step.formats, step.listChanged, step.at);
    AppendedAre(s, Names(s.slots), step.devices, step.formats, db, step.at);
    FreshExactly(Names(s.slots), step.devices);
    hide AppendSlots, Names, Views, SlotTold, Fresh, DistinctCameras, ComesUp, Appended;
    AppendedComeUp(s, step, t.slots);
    if Lists(s, step) { AllListed(s.log, t); }
  }

  lemma AppendedComeUp(s: State, step: Step, r: seq<CamSlot>)
    requires step.AppendNew? && Appended(s, Fresh(Names(s.slots), step.devices), step.at, r)
    ensures |r| == |s.slots| + |Fresh(Names(s.slots), step.devices)| && r[..|s.slots|] == s.slots
    ensures forall j: nat | |s.slots| <= j < |r| :: !r[j].lastRunning && r[j].running == ComesUp(s, step, j - |s.slots|)
  {
    hide Fresh, Names, EnabledFlag;
  }

  lemma AllListed(log: seq<Event>, t: State)
    requires DistinctCameras(t.slots) && t.log == log + [CamerasChanged(Views(t.slots))]
    ensures forall j: nat | j < |t.slots| :: SlotTold(t, j) == Some(t.slots[j].running)
  {
    hide LastTold, Views, DistinctCameras;
    forall j: nat | j < |t.slots| ensures SlotTold(t, j) == Some(t.slots[j].running) { ListTells(log, t.slots, j); }
  }

  // ----- The tick -----

  lemma {:induction false} TickLogTells(s: State, n: nat, step: Step, j: nat)
    requires step.Tick? && DistinctCameras(s.slots) && j < |s.slots| && n <= |s.slots|
    ensures LastTold(TickLog(s.slots[..n], step.now, s.stop, step.at), s.slots[j].cfg.friendlyName)
         == if j < n then Tells(s, step, j) else None
  {
    if n > 0 {
      var m, name := n - 1, s.slots[j].cfg.friendlyName;
      assert s.slots[..n][..m] == s.slots[..m];
      var front := TickLog(s.slots[..m], step.now, s.stop, step.at);
      var es := TickEvents(s.slots[m], step.now, s.stop, step.at(m));
      assert TickLog(s.slots[..n], step.now, s.stop, step.at) == front + es;
      hide TickLog, TickEvents, LastTold, Tells, DistinctCameras;
      TickLogTells(s, m, step, j);
      EventsTell(s, step, m, j);
      LastToldConcat(front, es, name);
    }
  }

  lemma EventsTell(s: State, step: Step, m: nat, j: nat)
    requires step.Tick? && DistinctCameras(s.slots) && j < |s.slots| && m < |s.slots|
    ensures LastTold(TickEvents(s.slots[m], step.now, s.stop, step.at(m)), s.slots[j].cfg.friendlyName)
         == if j == m then Tells(s, step, j) else None
  {
    SlotTells(s, step, m);
    hide TickSlot, TickEvents, LastTold, RunsAfter, NotesAfter, Tells;
    OneTold(TickEvents(s.slots[m], step.now, s.stop, step.at(m)), s.slots[j].cfg.friendlyName);
  }

  lemma OneTold(es: seq<Event>, name: string)
    requires |es| <= 1
    ensures LastTold(es, name) == if es == [] then None else ToldBy(es[0], name)
  {
    if es != [] { assert es[..0] == []; }
  }

  /** A slot's part of the tick. */
  lemma SlotTells(s: State, step: Step, i: nat)
    requires step.Tick? && i < |s.slots|
    ensures var slot := s.slots[i];
      var t, es := TickSlot(slot, step.now, s.stop, step.at(i)), TickEvents(slot, step.now, s.stop, step.at(i));
      && t.cfg == slot.cfg && |es| <= 1
      && t.running == RunsAfter(s, step, i) && t.lastRunning == NotesAfter(s, step, i)
      && (es != [] ==> es[0] == CameraStateChanged(View(t)))
      && Tells(s, step, i) == if es == [] then None else Some(t.running)
  {
    hide View;
  }

  lemma MtxTells(s: State, now: int, mtx: Attempt, name: string)
    ensures LastTold(MtxTick(s, now, mtx).log, name) == LastTold(s.log, name)
  {
    var es := MtxTick(s, now, mtx).log[|s.log|..];
    assert MtxTick(s, now, mtx).log == s.log + es && NoState(es);
    LastToldConcat(s.log, es, name);
    NoStateTold(es, name);
  }

  lemma TickTells(s: State, step: Step, j: nat)
    requires step.Tick? && DistinctCameras(s.slots) && j < |s.slots|
    ensures Follows(s, DoTick(s, step.now, step.mtx, step.at), step, j)
  {
    var m, t := MtxTick(s, step.now, step.mtx), DoTick(s, step.now, step.mtx, step.at);
    var es := TickLog(s.slots, step.now, s.stop, step.at);
    var name := s.slots[j].cfg.friendlyName;
    assert t.log == m.log + es;
    assert t.slots[j] == TickSlot(s.slots[j], step.now, s.stop, step.at(j));
    assert s.slots[..|s.slots|] == s.slots;
    hide DoTick, MtxTick, LastTold, TickLog, TickSlots, TickSlot, TickEvents, RunsAfter, NotesAfter, Tells,
      DistinctCameras;
    MtxTells(s, step.now, step.mtx, name);
    LastToldConcat(m.log, es, name);
    TickLogTells(s, |s.slots|, step, j);
    SlotTells(s, step, j);
  }

  // ----- Every step -----

  lemma PublishTells(s: State, j: nat)
    requires j < |s.slots|
    ensures Follows(s, DoPublishNext(s), PublishNext, j)
  {
    hide LastTold, ToldBy, DeviceNames, ModeFromString, NewAmong, FindName;
    if s.outbox != [] { LastToldSnoc(s.log, s.outbox[0], s.slots[j].cfg.friendlyName); }
  }

  lemma PresenceTells(s: State, step: Step, j: nat)
    requires step.PresenceDiff? && j < |s.slots|
    ensures Follows(s, DoPresenceDiff(s, step.current, step.at), step, j)
  {
    hide LastTold, ToldBy, DeviceNames, ModeFromString, NewAmong, FindName;
  }

  lemma HookTells(s: State, step: Step, j: nat)
    requires step.ViewerHook? && j < |s.slots|
    ensures Follows(s, DoViewerHook(s, step.kind, step.path), step, j)
  {
    hide LastTold, FindPath, View, ToldBy, DeviceNames, ModeFromString, NewAmong, FindName;
  }

  lemma QuietTells(db: KnownDb, s: State, step: Step, j: nat)
    requires step.ReloadSettings? || step.Shutdown? || step.Crash? || step.MtxCrash? || step.FinalSweep?
    requires j < |s.slots|
    ensures Follows(s, Next(db, s, step), step, j)
  {
    hide LastTold, ToldBy, DeviceNames, ModeFromString, NewAmong, FindName, DoTick, DoRestartCamera, DoSetMode,
      DoSetStreamEnabled, DoSetViewerCredentials, DoViewerHook, DoPublishNext, DoPresenceDiff, DoAppendNew;
  }

  /** Every step, as far as a camera's process, its slot's note and clients go. */
  lemma StepTells(db: KnownDb, s: State, step: Step, j: nat)
    requires DistinctCameras(s.slots) && DistinctCameras(Next(db, s, step).slots) && j < |s.slots|
    ensures Follows(s, Next(db, s, step), step, j)
  {
    hide DoTick, DoRestartCamera, DoSetMode, DoSetStreamEnabled, DoSetViewerCredentials, DoViewerHook, DoPublishNext,
      DoPresenceDiff, DoAppendNew, DoFinalSweep, Follows, DistinctCameras;
    match step
    case Tick(_, _, _) => TickTells(s, step, j);
    case RestartCamera(_, _) => RestartTells(s, step, j);
    case SetMode(_, _, _, _, _, _, _) => SetModeTells(s, step, j);
    case SetStreamEnabled(_, _, _, _) => SwitchTells(s, step, j);
    case SetViewerCredentials(_, _, _, _, _) => CredentialsTell(s, step, j);
    case ViewerHook(_, _) => HookTells(s, step, j);
    case PublishNext => PublishTells(s, j);
    case PresenceDiff(_, _) => PresenceTells(s, step, j);
    case AppendNew(_, _, _, _) => AppendFollows(db, s, step, j);
    case _ => QuietTells(db, s, step, j);
  }

  lemma AppendFollows(db: KnownDb, s: State, step: Step, j: nat)
    requires step.AppendNew? && DistinctCameras(Next(db, s, step).slots) && j < |s.slots|
    ensures Follows(s, Next(db, s, step), step, j)
  {
    AppendTells(db, s, step);
    hide Next, LastTold, NewAmong, Fresh, DistinctCameras;
    var t := Next(db, s, step);
    assert t.slots[..|s.slots|][j] == s.slots[j];
  }

  /** Only an append adds slots, and its list tells of them. */
  lemma NewSlotsTold(db: KnownDb, s: State, step: Step)
    requires DistinctCameras(Next(db, s, step).slots)
    ensures var t := Next(db, s, step);
      && |t.slots| >= |s.slots| && (|t.slots| > |s.slots| ==> step.AppendNew? && Lists(s, step))
      && forall j: nat | |s.slots| <= j < |t.slots| :: SlotTold(t, j) == Some(t.slots[j].running)
  {
    if step.AppendNew? {
      AppendTells(db, s, step);
    } else {
      SlotsStay(db, s, step);
    }
  }

  lemma SlotsStay(db: KnownDb, s: State, step: Step)
    requires !step.AppendNew?
    ensures |Next(db, s, step).slots| == |s.slots|
  {
    hide View, Views, FindName, FindPath, Restarted, Switched, Stored, TickLog, ModeFromString;
  }

  // ----- What a slot notes as told -----

  /** Clients were last told what the slot notes as told. */
  predicate ToldAt(s: State, i: nat)
    requires i < |s.slots|
  {
    SlotTold(s, i).GetOr(s.slots[i].lastRunning) == s.slots[i].lastRunning
  }

  predicate Told(s: State) {
    forall i: nat | i < |s.slots| :: ToldAt(s, i)
  }

  /** The event that the hook thread publishes next tells another state than a slot
      notes: it was overtaken since it was composed, or the process had changed
      already then and no tick has noticed. */
  predicate DiffersFromNote(s: State, step: Step) {
    exists i: nat | i < |s.slots| :: EventDiffers(s, step, i)
  }

  predicate EventDiffers(s: State, step: Step, i: nat)
    requires i < |s.slots|
  {
    && step.PublishNext? && s.outbox != []
    && ToldBy(s.outbox[0], s.slots[i].cfg.friendlyName) == Some(!s.slots[i].lastRunning)
  }

  /** The list that is published tells another state than a slot notes: its process
      has changed and no tick has noticed, or the slot is new and comes up at once. */
  predicate ListDiffers(s: State, step: Step) {
    (exists i: nat | i < |s.slots| :: EntryDiffers(s, step, i)) || NewEntryDiffers(s, step)
  }

  predicate EntryDiffers(s: State, step: Step, i: nat)
    requires i < |s.slots|
  {
    Lists(s, step) && s.slots[i].running != s.slots[i].lastRunning
  }

  predicate NewEntryDiffers(s: State, step: Step) {
    && step.AppendNew? && Lists(s, step)
    && exists m: nat | m < |Fresh(Names(s.slots), step.devices)| :: ComesUp(s, step, m)
  }

  lemma OldSlotTold(s: State, t: State, step: Step, i: nat)
    requires i < |s.slots| && ToldAt(s, i) && Follows(s, t, step, i)
    requires s.slots[i].running ==> s.slots[i].Active()
    ensures ToldAt(t, i) <==> !EventDiffers(s, step, i) && !EntryDiffers(s, step, i)
  {
    hide SlotTold, ToldBy, FindName, DeviceNames, NewAmong, ModeFromString;
  }

  lemma NewSlotTold(db: KnownDb, s: State, step: Step)
    requires DistinctCameras(Next(db, s, step).slots)
    ensures var t := Next(db, s, step);
      && |t.slots| >= |s.slots|
      && ((forall j: nat | |s.slots| <= j < |t.slots| :: ToldAt(t, j)) <==> !NewEntryDiffers(s, step))
  {
    NewSlotsTold(db, s, step);
    if step.AppendNew? {
      AppendTells(db, s, step);
      hide Next, DistinctCameras;
      AppendedTold(s, Next(db, s, step), step);
    }
  }

  lemma AppendedTold(s: State, t: State, step: Step)
    requires step.AppendNew? && ListsAppended(s, t, step)
    ensures (forall j: nat | |s.slots| <= j < |t.slots| :: ToldAt(t, j)) <==> !NewEntryDiffers(s, step)
  {
    hide SlotTold, ComesUp, Fresh, Lists, Names;
    var n := |s.slots|;
    forall m: nat | m < |t.slots| - n ensures ToldAt(t, n + m) <==> !ComesUp(s, step, m) { assert n + m - n == m; }
  }

  lemma OldSlotsTold(db: KnownDb, s: State, step: Step)
    requires Told(s) && GateHolds(s.slots) && DistinctCameras(s.slots) && DistinctCameras(Next(db, s, step).slots)
    ensures var t := Next(db, s, step);
      && |t.slots| >= |s.slots|
      && forall i: nat | i < |s.slots| :: ToldAt(t, i) <==> !EventDiffers(s, step, i) && !EntryDiffers(s, step, i)
  {
    hide Next, Follows, EventDiffers, EntryDiffers, ToldAt, DistinctCameras;
    NewSlotsTold(db, s, step);
    forall i: nat | i < |s.slots|
      ensures ToldAt(Next(db, s, step), i) <==> !EventDiffers(s, step, i) && !EntryDiffers(s, step, i)
    {
      assert ToldAt(s, i);
      StepTells(db, s, step, i);
      OldSlotTold(s, Next(db, s, step), step, i);
    }
  }

  /** Exactly when a step makes what was last told differ from what a slot notes as
      told, while the gate holds and names are distinct: when the hook thread's next
      event, or the list that the step publishes, differs from a slot's note. */
  lemma ToldStep(db: KnownDb, s: State, step: Step)
    requires Told(s) && GateHolds(s.slots) && DistinctCameras(s.slots) && DistinctCameras(Next(db, s, step).slots)
    ensures Told(Next(db, s, step)) <==> !DiffersFromNote(s, step) && !ListDiffers(s, step)
  {
    OldSlotsTold(db, s, step);
    NewSlotTold(db, s, step);
    hide Next, EventDiffers, EntryDiffers, NewEntryDiffers, ToldAt, DistinctCameras, GateHolds;
  }

  lemma DistinctBefore(a: seq<CamSlot>, b: seq<CamSlot>)
    requires KeepsNames(a, b) && DistinctCameras(b)
    ensures DistinctCameras(a)
  {
  }

  lemma BootTold(db: KnownDb, o: Origin)
    ensures Told(Boot(db, o)) && Sound(Boot(db, o))
  {
  }

  /** On every run in which only present and enabled cameras run, and no event and no
      list differs from a slot's note, clients have last been told of each camera
      what its slot notes. */
  lemma {:induction false} ToldOverRuns(db: KnownDb, o: Origin, steps: seq<Step>, k: nat)
    requires k <= |steps| && DistinctCameras(Reached(db, o, steps[..k]).slots)
    requires forall j | 0 <= j < k ::
      var s := Reached(db, o, steps[..j]);
      !StartsInactive(s, steps[j]) && !DiffersFromNote(s, steps[j]) && !ListDiffers(s, steps[j])
    ensures Told(Reached(db, o, steps[..k]))
  {
    hide Next, Boot, Told, DistinctCameras, GateHolds, StartsInactive, DiffersFromNote, ListDiffers;
    if k == 0 {
      BootTold(db, o);
    } else {
      var s := Reached(db, o, steps[..k - 1]);
      ReachedStep(db, o, steps, k - 1);
      NamesPersist(db, s, steps[k - 1]);
      DistinctBefore(s.slots, Reached(db, o, steps[..k]).slots);
      ToldOverRuns(db, o, steps, k - 1);
      GateOverRuns(db, o, steps, k - 1);
      ToldStep(db, s, steps[k - 1]);
    }
  }

  // ----- What clients can rely on -----

  /** Where the slot's note is what the process does, clients were last told so. */
  predicate SoundAt(s: State, i: nat)
    requires i < |s.slots|
  {
    s.slots[i].running == s.slots[i].lastRunning ==> ToldAt(s, i)
  }

  predicate Sound(s: State) {
    forall i: nat | i < |s.slots| :: SoundAt(s, i)
  }

  /** Clients know what the process does, and the slot does not note it. */
  predicate Ahead(s: State, i: nat)
    requires i < |s.slots|
  {
    s.slots[i].running != s.slots[i].lastRunning && SlotTold(s, i) == Some(s.slots[i].running)
  }

  /** The step starts or stops the process, and if the slot's note fits, tells nobody. */
  predicate Silent(s: State, step: Step, i: nat)
    requires i < |s.slots|
  {
    var slot := s.slots[i];
    match step
    case Tick(now, _, at) =>
      slot.Active() && !slot.running && !s.stop && now >= slot.backoff.earliestNext && at(i).up
    case PresenceDiff(current, at) =>
      var here := slot.cfg.friendlyName in DeviceNames(current);
      || (slot.present && !here && slot.running)
      || (!slot.present && here && slot.cfg.enabled && slot.running != (!s.stop && at(i).up))
    case Crash(j) => j == i && slot.running
    case FinalSweep => slot.running
    case _ => false
  }

  /** A camera that clients are misled about from this step on. */
  predicate Misleads(s: State, step: Step, i: nat)
    requires i < |s.slots|
  {
    || (Ahead(s, i) && Silent(s, step, i))
    || (step.PublishNext? && s.outbox != [] && s.slots[i].running == s.slots[i].lastRunning
        && ToldBy(s.outbox[0], s.slots[i].cfg.friendlyName) == Some(!s.slots[i].running))
  }

  lemma OldSlotSound(s: State, t: State, step: Step, i: nat)
    requires i < |s.slots| && SoundAt(s, i) && Follows(s, t, step, i)
    ensures SoundAt(t, i) <==> !Misleads(s, step, i)
  {
    hide SlotTold, ToldBy, FindName, DeviceNames, NewAmong, ModeFromString;
  }

  /** Exactly when a step leaves clients with a wrong state that no tick puts right while
      the process stays as it is: when the process of a camera, of which a list or a hook event told
      ahead of the slot's note, goes back to what is noted, or when the hook thread
      publishes a state of a camera whose slot notes the opposite rightly. */
  lemma SoundStep(db: KnownDb, s: State, step: Step)
    requires Sound(s) && DistinctCameras(s.slots) && DistinctCameras(Next(db, s, step).slots)
    ensures Sound(Next(db, s, step)) <==> forall i: nat | i < |s.slots| :: !Misleads(s, step, i)
  {
    var t := Next(db, s, step);
    NewSlotsTold(db, s, step);
    hide Next, Follows, Misleads, DistinctCameras, SlotTold, Lists;
    forall i: nat | i < |s.slots| ensures SoundAt(t, i) <==> !Misleads(s, step, i) {
      assert SoundAt(s, i);
      StepTells(db, s, step, i);
      OldSlotSound(s, t, step, i);
    }
    forall j: nat | |s.slots| <= j < |t.slots| ensures SoundAt(t, j) {}
  }

  lemma {:induction false} SoundOverRuns(db: KnownDb, o: Origin, steps: seq<Step>, k: nat)
    requires k <= |steps| && DistinctCameras(Reached(db, o, steps[..k]).slots)
    requires forall j | 0 <= j < k :: NeverMisleads(Reached(db, o, steps[..j]), steps[j])
    ensures Sound(Reached(db, o, steps[..k]))
  {
    hide Next, Boot, Sound, DistinctCameras, Misleads;
    if k == 0 {
      BootTold(db, o);
    } else {
      var s := Reached(db, o, steps[..k - 1]);
      ReachedStep(db, o, steps, k - 1);
      NamesPersist(db, s, steps[k - 1]);
      DistinctBefore(s.slots, Reached(db, o, steps[..k]).slots);
      SoundOverRuns(db, o, steps, k - 1);
      SoundStep(db, s, steps[k - 1]);
    }
  }

  predicate NeverMisleads(s: State, step: Step) {
    forall i: nat | i < |s.slots| :: !Misleads(s, step, i)
  }

  /** On every such run, whatever cameras were added, crashed, unplugged, switched or
      listed: after each tick clients were last told of every camera, the disabled
      ones that run aside, whether it runs. */
  lemma ClientsKnowAfterTick(db: KnownDb, o: Origin, steps: seq<Step>, i: nat)
    requires steps != [] && steps[|steps| - 1].Tick? && DistinctCameras(Reached(db, o, steps).slots)
    requires forall j | 0 <= j < |steps| :: NeverMisleads(Reached(db, o, steps[..j]), steps[j])
    requires i < |Reached(db, o, steps).slots|
    ensures var t := Reached(db, o, steps);
      t.slots[i].Active() || !t.slots[i].running ==> SlotTold(t, i).GetOr(t.slots[i].running) == t.slots[i].running
  {
    var n, t := |steps| - 1, Reached(db, o, steps);
    assert steps[..|steps|] == steps;
    hide Next, Reached, Boot, DistinctCameras, NeverMisleads, SlotTold;
    SoundOverRuns(db, o, steps, |steps|);
    ReachedStep(db, o, steps, n);
    TickSyncs(db, Reached(db, o, steps[..n]), steps[n], i);
    assert SoundAt(t, i);
  }

  lemma TickSyncs(db: KnownDb, s: State, step: Step, i: nat)
    requires step.Tick? && i < |Next(db, s, step).slots|
    ensures var slot := Next(db, s, step).slots[i];
      slot.Active() || !slot.running ==> slot.lastRunning == slot.running
  {
  }

  // ----- Of which cameras clients are told -----

  predicate AboutCameras(e: Event, slots: seq<CamSlot>) {
    match e
    case CameraStateChanged(cam) => KnownName(slots, cam.name)
    case CamerasChanged(cams) => forall i | 0 <= i < |cams| :: KnownName(slots, cams[i].name)
    case _ => true
  }

  predicate AllAbout(es: seq<Event>, slots: seq<CamSlot>) {
    forall e | e in es :: AboutCameras(e, slots)
  }

  lemma NamesStayKnown(a: seq<CamSlot>, b: seq<CamSlot>, es: seq<Event>)
    requires KeepsNames(a, b) && AllAbout(es, a)
    ensures AllAbout(es, b)
  {
    forall name | KnownName(a, name) ensures KnownName(b, name) {
      var i :| 0 <= i < |a| && a[i].cfg.friendlyName == name;
      assert b[i].cfg.friendlyName == name;
    }
    hide KnownName;
  }

  lemma HasSlot(slots: seq<CamSlot>, i: nat)
    requires i < |slots|
    ensures KnownName(slots, slots[i].cfg.friendlyName)
  {
  }

  lemma ViewsAreKnown(slots: seq<CamSlot>)
    ensures AboutCameras(CamerasChanged(Views(slots)), slots)
  {
    forall i | 0 <= i < |slots| ensures KnownName(slots, Views(slots)[i].name) { HasSlot(slots, i); }
  }

  lemma {:induction false} TickLogKnown(slots: seq<CamSlot>, n: nat, now: int, stop: bool, at: Attempts)
    requires n <= |slots|
    ensures AllAbout(TickLog(slots[..n], now, stop, at), slots)
  {
    if n > 0 {
      TickLogKnown(slots, n - 1, now, stop, at);
      assert slots[..n][..n - 1] == slots[..n - 1];
      HasSlot(slots, n - 1);
      hide KnownName;
    }
  }

  /** Everything published or about to be published is about cameras that have a slot. */
  predicate OnlyCameras(s: State) {
    AllAbout(s.log, s.slots) && AllAbout(s.outbox, s.slots)
  }

  /** What a step adds to the log or to the hook thread's outbox. */
  lemma NewEventsKnown(db: KnownDb, s: State, step: Step, e: Event)
    requires !step.Tick?
    requires var t := Next(db, s, step); e in t.log + t.outbox && e !in s.log + s.outbox
    ensures AboutCameras(e, Next(db, s, step).slots)
  {
    hide AboutCameras, DoRestartCamera, DoSetMode, DoSetStreamEnabled, DoSetViewerCredentials, DoViewerHook, DoAppendNew,
      DoPresenceDiff;
    match step
    case RestartCamera(name, _) => HandlerKnown(db, s, step, name, e);
    case SetMode(name, _, _, _, _, _, _) => HandlerKnown(db, s, step, name, e);
    case SetStreamEnabled(name, _, _, _) => HandlerKnown(db, s, step, name, e);
    case ViewerHook(_, _) => HookKnown(db, s, step, e);
    case SetViewerCredentials(_, _, _, _, _) => ListKnown(db, s, step, e);
    case PresenceDiff(_, _) => PresenceQuiet(db, s, step);
    case AppendNew(_, _, _, _) => ListKnown(db, s, step, e);
    case _ =>
  }

  lemma PresenceQuiet(db: KnownDb, s: State, step: Step)
    requires step.PresenceDiff?
    ensures Next(db, s, step).log == s.log && Next(db, s, step).outbox == s.outbox
  {
  }

  lemma HookKnown(db: KnownDb, s: State, step: Step, e: Event)
    requires step.ViewerHook?
    requires var t := Next(db, s, step); e in t.log + t.outbox && e !in s.log + s.outbox
    ensures AboutCameras(e, Next(db, s, step).slots)
  {
    hide FindPath, KnownName;
    var i := FindPath(s.slots, step.path);
    if i < |s.slots| { HasSlot(Next(db, s, step).slots, i); }
  }

  lemma ListKnown(db: KnownDb, s: State, step: Step, e: Event)
    requires step.SetViewerCredentials? || step.AppendNew?
    requires var t := Next(db, s, step); e in t.log + t.outbox && e !in s.log + s.outbox
    ensures AboutCameras(e, Next(db, s, step).slots)
  {
    hide Views, KnownName, AppendSlots, Names;
    ViewsAreKnown(Next(db, s, step).slots);
  }

  lemma HandlerKnown(db: KnownDb, s: State, step: Step, name: string, e: Event)
    requires step.RestartCamera? || step.SetMode? || step.SetStreamEnabled?
    requires name == step.name
    requires var t := Next(db, s, step); e in t.log + t.outbox && e !in s.log + s.outbox
    ensures AboutCameras(e, Next(db, s, step).slots)
  {
    hide FindName, KnownName, Stored, ModeFromString, ModeUpdate;
    HasSlot(Next(db, s, step).slots, FindName(s.slots, name));
  }

  lemma TickKnown(db: KnownDb, s: State, step: Step)
    requires step.Tick? && OnlyCameras(s)
    ensures OnlyCameras(Next(db, s, step))
  {
    assert s.slots[..|s.slots|] == s.slots;
    TickLogKnown(s.slots, |s.slots|, step.now, s.stop, step.at);
    NamesPersist(db, s, step);
    var m, t, es := MtxTick(s, step.now, step.mtx), Next(db, s, step), TickLog(s.slots, step.now, s.stop, step.at);
    assert t.log == m.log + es && t.outbox == s.outbox;
    assert forall e | e in m.log :: e in s.log || e.MediaMtxStateChanged?;
    hide Next, MtxTick, KnownName;
    NamesStayKnown(s.slots, t.slots, es);
    NamesStayKnown(s.slots, t.slots, m.log);
    NamesStayKnown(s.slots, t.slots, s.outbox);
  }

  lemma KnownStep(db: KnownDb, s: State, step: Step)
    requires OnlyCameras(s)
    ensures OnlyCameras(Next(db, s, step))
  {
    var t := Next(db, s, step);
    if step.Tick? {
      TickKnown(db, s, step);
    } else {
      hide Next, KnownName;
      NamesPersist(db, s, step);
      NamesStayKnown(s.slots, t.slots, s.log);
      NamesStayKnown(s.slots, t.slots, s.outbox);
      hide AboutCameras;
      forall e | e in t.log + t.outbox ensures AboutCameras(e, t.slots) {
        if e !in s.log + s.outbox { NewEventsKnown(db, s, step, e); }
      }
    }
  }

  lemma {:induction false} ToldIsKnown(log: seq<Event>, slots: seq<CamSlot>, name: string)
    requires AllAbout(log, slots) && LastTold(log, name).Some?
    ensures KnownName(slots, name)
  {
    var n := |log| - 1;
    assert AboutCameras(log[n], slots);
    if ToldBy(log[n], name).None? {
      ToldIsKnown(log[..n], slots, name);
    } else if log[n].CamerasChanged? {
      ListedIsMember(log[n].cams, name);
    }
  }

  lemma {:induction false} ListedIsMember(cams: seq<CamView>, name: string)
    requires Listed(cams, name).Some?
    ensures exists i | 0 <= i < |cams| :: cams[i].name == name
  {
    var n := |cams| - 1;
    if cams[n].name != name { ListedIsMember(cams[..n], name); }
  }

  /** In every run clients are told of no camera that has no slot. */
  lemma {:induction false} OnlyCamerasAreTold(db: KnownDb, o: Origin, steps: seq<Step>, name: string)
    ensures OnlyCameras(Reached(db, o, steps))
    ensures LastTold(Reached(db, o, steps).log, name).Some? ==> KnownName(Reached(db, o, steps).slots, name)
  {
    hide Next, KnownName;
    if steps != [] {
      hide Boot;
      var n := |steps| - 1;
      OnlyCamerasAreTold(db, o, steps[..n], name);
      assert steps[..n + 1] == steps;
      ReachedStep(db, o, steps, n);
      KnownStep(db, Reached(db, o, steps[..n]), steps[n]);
    } else {
      assert Boot(db, o).log == [] && Boot(db, o).outbox == [];
    }
    if LastTold(Reached(db, o, steps).log, name).Some? {
      ToldIsKnown(Reached(db, o, steps).log, Reached(db, o, steps).slots, name);
    }
  }

  // ----- Runs in which clients are misled -----

  /** The only camera, active, with its next start due at this time. */
  predicate Alone(s: State, due: int, name: string) {
    && |s.slots| == 1 && !s.stop && s.slots[0].Active() && s.slots[0].cfg.friendlyName == name
    && s.slots[0].cfg.rtspPath == "/webcam0" && s.slots[0].backoff.earliestNext == due
  }

  lemma AloneStays(db: KnownDb, s: State, due: int, name: string, step: Step)
    requires Alone(s, due, name)
    requires step.Crash? || step.SetViewerCredentials? || step.ViewerHook? || step.PublishNext?
    ensures Alone(Next(db, s, step), due, name) && Follows(s, Next(db, s, step), step, 0)
  {
    AloneKept(db, s, due, name, step);
    StepTells(db, s, step, 0);
  }

  lemma AloneKept(db: KnownDb, s: State, due: int, name: string, step: Step)
    requires Alone(s, due, name)
    requires step.Crash? || step.SetViewerCredentials? || step.ViewerHook? || step.PublishNext?
    ensures Alone(Next(db, s, step), due, name)
  {
    hide View, Views, FindPath;
  }

  lemma BootedAlone(db: KnownDb, o: Origin)
    requires |o.devices| == 1 && Boot(db, o).slots[0].cfg.enabled && o.at(0).up && o.mtx.up
    ensures var s := Boot(db, o);
      && Alone(s, o.at(0).at + 1000, o.devices[0].name) && s.outbox == [] && SlotTold(s, 0).None?
      && s.slots[0].running && s.slots[0].lastRunning
  {
    BootedSlot(db, o);
  }

  lemma ReachedSnoc(db: KnownDb, o: Origin, steps: seq<Step>, step: Step)
    ensures Reached(db, o, steps + [step]) == Next(db, Reached(db, o, steps), step)
  {
    hide Next;
    FoldSnoc((s: State, step: Step) => Next(db, s, step), Boot(db, o), steps, step);
  }

  lemma FiveSteps(db: KnownDb, o: Origin, a: Step, b: Step, c: Step, d: Step, e: Step)
    ensures Reached(db, o, [a, b, c, d, e])
         == Next(db, Next(db, Next(db, Next(db, Next(db, Boot(db, o), a), b), c), d), e)
  {
    ThreeSteps(db, o, a, b, c);
    hide Next, Reached, Boot;
    ReachedSnoc(db, o, [a, b, c], d);
    ReachedSnoc(db, o, [a, b, c, d], e);
    assert [a, b, c] + [d] == [a, b, c, d] && [a, b, c, d] + [e] == [a, b, c, d, e];
  }

  /** The hook thread composes two events, the second of which tells the state of now. */
  lemma HookComposes(db: KnownDb, s: State, due: int, name: string, kind: string)
    requires Alone(s, due, name) && s.outbox == [] && (kind == "read" || kind == "unread")
    ensures var t := Next(db, s, ViewerHook(kind, "webcam0"));
      && |t.outbox| == 2 && t.outbox[0].ViewerChanged? && t.outbox[1] == CameraStateChanged(View(t.slots[0]))
  {
    assert "/webcam0"[1..] == "webcam0";
    hide View;
  }

  lemma TickAlone(db: KnownDb, s: State, due: int, name: string, step: Step)
    requires Alone(s, due, name) && step.Tick?
    ensures var t := Next(db, s, step);
      |t.slots| == 1 && t.outbox == s.outbox && t.slots[0].cfg == s.slots[0].cfg && Follows(s, t, step, 0)
  {
    assert |Next(db, s, step).slots| == 1;
    StepTells(db, s, step, 0);
  }

  /** The environment of the runs below: one camera, which is up after startup. */
  predicate UpAtStart(db: KnownDb, o: Origin) {
    |o.devices| == 1 && Boot(db, o).slots[0].cfg.enabled && o.at(0).up && o.mtx.up
  }

  /** The attempts of a tick that reads the clock at this time. */
  ghost predicate InTime(now: int, mtx: Attempt, at: Attempts) {
    mtx.at >= now && forall i: nat :: at(i).at >= now
  }

  /** An event that is overtaken: a viewer connects; before the hook thread publishes
      what it has composed, the publisher crashes and a tick tells so. The last thing
      that clients are told is that the camera runs, and it does not. */
  lemma StaleEventIsLast(db: KnownDb, o: Origin, now: int, mtx: Attempt, at: Attempts)
    requires UpAtStart(db, o) && now < o.at(0).at + 1000 && InTime(now, mtx, at)
    ensures var steps := [ViewerHook("read", "webcam0"), Crash(0), Tick(now, mtx, at), PublishNext, PublishNext];
      var s := Reached(db, o, steps);
      && IsRun(db, o, steps) && |s.slots| == 1 && s.outbox == []
      && SlotTold(s, 0) == Some(true) && !s.slots[0].running && !s.slots[0].lastRunning
  {
    var read, tick := ViewerHook("read", "webcam0"), Tick(now, mtx, at);
    var due, name := o.at(0).at + 1000, o.devices[0].name;
    BootedAlone(db, o);
    FiveSteps(db, o, read, Crash(0), tick, PublishNext, PublishNext);
    FreeRun(db, o, [read, Crash(0), tick, PublishNext, PublishNext]);
    hide Boot, Reached, IsRun, Next, SlotTold, Alone, Follows;
    var s2 := Next(db, Next(db, Boot(db, o), read), Crash(0));
    ReadThenCrash(db, Boot(db, o), due, name);
    TickNotices(db, s2, due, name, tick);
    BothPublished(db, Next(db, s2, tick));
  }

  lemma ReadThenCrash(db: KnownDb, s: State, due: int, name: string)
    requires Alone(s, due, name) && s.outbox == [] && s.slots[0].running
    ensures var t := Next(db, Next(db, s, ViewerHook("read", "webcam0")), Crash(0));
      && Alone(t, due, name) && |t.outbox| == 2 && t.outbox[0].ViewerChanged?
      && t.outbox[1].CameraStateChanged? && t.outbox[1].cam.name == name && t.outbox[1].cam.running
      && !t.slots[0].running
  {
    var t := Next(db, s, ViewerHook("read", "webcam0"));
    AloneStays(db, s, due, name, ViewerHook("read", "webcam0"));
    AloneStays(db, t, due, name, Crash(0));
    HookComposes(db, s, due, name, "read");
    assert Next(db, t, Crash(0)).outbox == t.outbox;
    hide Next, SlotTold;
  }

  lemma TickNotices(db: KnownDb, s: State, due: int, name: string, step: Step)
    requires Alone(s, due, name) && !s.slots[0].running && step.Tick? && step.now < due
    ensures var t := Next(db, s, step);
      && |t.slots| == 1 && t.outbox == s.outbox && t.slots[0].cfg.friendlyName == name
      && !t.slots[0].running && !t.slots[0].lastRunning
  {
    TickAlone(db, s, due, name, step);
    hide Next, SlotTold;
  }

  /** The hook thread publishes both events that it has composed. */
  lemma BothPublished(db: KnownDb, s: State)
    requires |s.slots| == 1 && |s.outbox| == 2 && s.outbox[0].ViewerChanged?
    requires s.outbox[1].CameraStateChanged? && s.outbox[1].cam.name == s.slots[0].cfg.friendlyName
    ensures var t := Next(db, Next(db, s, PublishNext), PublishNext);
      && t.slots == s.slots && t.outbox == [] && SlotTold(t, 0) == Some(s.outbox[1].cam.running)
  {
    LastToldSnoc(s.log + [s.outbox[0]], s.outbox[1], s.slots[0].cfg.friendlyName);
  }

  /** An event that nothing overtook: the publisher crashes, the hook thread tells so
      truly, and the next tick, which brings the publisher up again, finds nothing to
      tell. The last thing that clients are told is that the camera does not run. */
  lemma TrueEventIsLast(db: KnownDb, o: Origin, now: int, mtx: Attempt, at: Attempts)
    requires UpAtStart(db, o) && now >= o.at(0).at + 1000 && at(0).up && InTime(now, mtx, at)
    ensures var steps := [Crash(0), ViewerHook("unread", "webcam0"), PublishNext, PublishNext, Tick(now, mtx, at)];
      var s, t := Reached(db, o, steps[..3]), Reached(db, o, steps);
      && IsRun(db, o, steps) && |s.slots| == |t.slots| == 1
      && s.outbox == [CameraStateChanged(View(s.slots[0]))] && DiffersFromNote(s, PublishNext)
      && t.outbox == [] && SlotTold(t, 0) == Some(false) && t.slots[0].running && t.slots[0].lastRunning
  {
    var unread, tick := ViewerHook("unread", "webcam0"), Tick(now, mtx, at);
    var steps := [Crash(0), unread, PublishNext, PublishNext, tick];
    var due, name := o.at(0).at + 1000, o.devices[0].name;
    BootedAlone(db, o);
    FiveSteps(db, o, Crash(0), unread, PublishNext, PublishNext, tick);
    ThreeSteps(db, o, Crash(0), unread, PublishNext);
    assert steps[..3] == [Crash(0), unread, PublishNext];
    FreeRun(db, o, steps);
    hide Boot, Reached, IsRun, Next, SlotTold, Alone, Follows;
    var s2 := Next(db, Next(db, Boot(db, o), Crash(0)), unread);
    CrashThenUnread(db, Boot(db, o), due, name);
    TruthPublished(db, s2, due, name);
    TickMissesIt(db, Next(db, Next(db, s2, PublishNext), PublishNext), due, name, tick);
  }

  lemma CrashThenUnread(db: KnownDb, s: State, due: int, name: string)
    requires Alone(s, due, name) && s.outbox == [] && s.slots[0].lastRunning
    ensures var t := Next(db, Next(db, s, Crash(0)), ViewerHook("unread", "webcam0"));
      && Alone(t, due, name) && |t.outbox| == 2 && t.outbox[0].ViewerChanged?
      && t.outbox[1] == CameraStateChanged(View(t.slots[0])) && !t.slots[0].running && t.slots[0].lastRunning
  {
    var t := Next(db, s, Crash(0));
    AloneStays(db, s, due, name, Crash(0));
    AloneStays(db, t, due, name, ViewerHook("unread", "webcam0"));
    HookComposes(db, t, due, name, "unread");
    hide Next, SlotTold, View;
  }

  lemma TruthPublished(db: KnownDb, s: State, due: int, name: string)
    requires Alone(s, due, name) && |s.outbox| == 2 && s.outbox[0].ViewerChanged?
    requires s.outbox[1] == CameraStateChanged(View(s.slots[0])) && !s.slots[0].running && s.slots[0].lastRunning
    ensures var t := Next(db, s, PublishNext);
      && |t.slots| == 1 && t.outbox == [CameraStateChanged(View(t.slots[0]))] && DiffersFromNote(t, PublishNext)
      && Alone(Next(db, t, PublishNext), due, name) && Next(db, t, PublishNext).outbox == []
      && SlotTold(Next(db, t, PublishNext), 0) == Some(false)
      && Next(db, t, PublishNext).slots == s.slots
  {
    var t := Next(db, s, PublishNext);
    BothPublished(db, s);
    assert t.slots == s.slots && t.outbox == s.outbox[1..];
    assert EventDiffers(t, PublishNext, 0);
    hide Next, SlotTold;
  }

  lemma TickMissesIt(db: KnownDb, s: State, due: int, name: string, step: Step)
    requires Alone(s, due, name) && !s.slots[0].running && s.slots[0].lastRunning
    requires step.Tick? && step.now >= due && step.at(0).up
    ensures var t := Next(db, s, step);
      && |t.slots| == 1 && t.outbox == s.outbox && t.slots[0].running && t.slots[0].lastRunning
      && SlotTold(t, 0) == SlotTold(s, 0)
  {
    TickAlone(db, s, due, name, step);
    hide Next, SlotTold;
  }

  /** A list that tells what no slot notes: the publisher crashes, new credentials make
      the supervisor publish the list, and the next tick, which brings the publisher up
      again, finds nothing to tell. No event differed from a note, and the last thing
      that clients are told is that the camera does not run. */
  lemma ListIsLast(db: KnownDb, o: Origin, user: string, pass: string, a: Attempt, now: int, mtx: Attempt, at: Attempts)
    requires UpAtStart(db, o) && now >= o.at(0).at + 1000 && at(0).up && InTime(now, mtx, at)
    requires user != "" && pass != ""
    ensures var steps := [Crash(0), SetViewerCredentials(user, pass, true, true, a), Tick(now, mtx, at)];
      var s := Reached(db, o, steps);
      && IsRun(db, o, steps) && |s.slots| == 1 && s.outbox == []
      && SlotTold(s, 0) == Some(false) && s.slots[0].running && s.slots[0].lastRunning
  {
    var credentials, tick := SetViewerCredentials(user, pass, true, true, a), Tick(now, mtx, at);
    var due, name := o.at(0).at + 1000, o.devices[0].name;
    BootedAlone(db, o);
    ThreeSteps(db, o, Crash(0), credentials, tick);
    FreeRun(db, o, [Crash(0), credentials, tick]);
    var s0 := Boot(db, o);
    var s1 := Next(db, s0, Crash(0));
    var s2 := Next(db, s1, credentials);
    AloneStays(db, s0, due, name, Crash(0));
    AloneStays(db, s1, due, name, credentials);
    assert s2.outbox == s1.outbox == s0.outbox;
    hide Boot, Reached, IsRun, Next, SlotTold;
    TickMissesIt(db, s2, due, name, tick);
  }
}
