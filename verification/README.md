# Verified model of the webcam supervisor

This project models, in Dafny, the supervisor of the webcam streamer, the hook
program that MediaMTX runs, and the parts of the user interface that talk to the
supervisor. It proves what the running system keeps, over every input, every run
and every interleaving of its threads. `dafny verify dfyconfig.toml` checks all of it.

The files follow the program's parts:

| file | part of the system |
|---|---|
| `Supervisor.dfy`, `SupervisorLoop.dfy` | the supervisor as a state machine, and its handlers and loop phases as methods that update the slots in place; each method is proved to do exactly its step |
| `SupervisorRuns.dfy`, `Backoff.dfy`, `ViewerCount.dfy`, `PathAlloc.dfy` | invariants of every run: restart bookkeeping, viewer counts, stream paths |
| `SupervisorEffects.dfy` | what every step does to each field, in the words and numbers of the request |
| `SupervisorGate.dfy` | which cameras publish, what a tick settles, what happens after the stop flag |
| `SupervisorMtx.dfy` | how often MediaMTX is restarted |
| `SupervisorTold.dfy` | what clients were last told of each camera, by events and lists, and when that is wrong |
| `SupervisorRecovery.dfy`, `SupervisorSaves.dfy`, `OverrideFile.dfy`, `CameraConfig.dfy`, `Slug.dfy`, `Decimal.dfy` | settings in memory against the override files on disk |
| `CameraFormats.dfy`, `DeviceList.dfy` | discovery and the default choice |
| `IpcPipe.dfy`, `IpcServing.dfy`, `IpcCalls.dfy`, `IpcSystem.dfy` | the control pipe: life cycle, line reading, whole messages, the client's calls, and both ends together |
| `PlainCodec.dfy` | a codec that meets what `IpcSystem.dfy` assumes of JSON |
| `LockOrder.dfy` | mutexes and joins of all threads |
| `CommandLine.dfy`, `StdoutReader.dfy`, `EventHook.dfy` | printers and parsers that must undo each other |
| `RowReconcile.dfy` | the camera table of the user interface |
| `Lines.dfy`, `Folds.dfy`, `Wrappers.dfy` | shared definitions: newline splitting, left folds and a stable sort, options |

How the state machine is read: a section that holds `state_mutex` throughout is one
step. A child process is its running bit; a start is an `Attempt`, the time at which
it is made and whether a child is up when the supervisor next looks, both chosen by
the environment; a crash is a step of the environment. The fields `starts`, `reports`
and `chosen` of a slot, and `mtxStarts` of the state, record history for the theorems;
no step reads them.

Where the code does less than its comments or its evident intent say, the model
follows the code, and the exact condition is proved:

- `camera_config.h:35-38` says that a camera publishes if and only if it is present and
  enabled. A restart or a mode change starts an unplugged or disabled camera all the
  same (`SupervisorGate.GateStep`, with a run in `DisabledCameraCanPublish`), and the
  tick, whose comment says "ensure ffmpeg is dead", leaves it running
  (`TickLeavesInactiveRunning`).
- A connected client without a pipe: when `Stop` closes the pipe between lines 208 and
  226 of `ipc_server.cpp`, the accept thread records a client although there is no pipe
  any more (`IpcPipe.ConnectedHasPipeExactly`, with the order of steps in
  `ClientWithoutPipe`).
- A crash and a restart that fall into one tick take a camera's viewers away without
  an event (`SupervisorGate.SilentResetExactly`, with a run in `ViewersVanishSilently`).
- Clients can be left with a wrong state of a camera. A list of all cameras tells what the
  processes do, and the hook thread publishes a state after it has released the lock;
  neither is noted in the slot, while a tick tells a state only if it differs from the
  note. Exactly which steps do harm is `SupervisorTold.SoundStep`; without them clients
  know after each tick what runs (`ClientsKnowAfterTick`). `ToldStep` says exactly which
  steps make note and last message differ. There are three runs: a list that no note
  remembers (`ListIsLast`), an event that was overtaken (`StaleEventIsLast`), and one
  that was true when it was published (`TrueEventIsLast`).
- A change of credentials restarts MediaMTX without regard to its backoff, on purpose;
  without one before the backoff has run out, its restarts are bounded as a camera's
  are (`SupervisorMtx.MtxStep`, `MtxRestartsAreBounded`).
- A request whose save fails is applied and answered all the same. The next start finds
  a switch again exactly when the flag chosen before, or without one the default at that
  start, is the same (`SupervisorRecovery.LostSwitchExactly`, with a run in
  `SwitchCanBeLost`), and a mode change exactly when it asked for nothing new
  (`LostModeExactly`, with a run in `ModeChangeCanBeLost`).
- A call whose line is never written, as when writing it throws, stays in the client's
  table for good (`IpcSystem.UnsentCallStays`).
- A snapshot with two elements of one new name leaves the camera table in a state in
  which every later snapshot fails (`RowReconcile.NextSnapshotSucceedsExactly`,
  `TwinsBlockTheTable`, `SnapshotsStuck`).
- A camera name with a newline in it can pass for a field of the override file
  (`OverrideFile.LoadsBackExactly`, `NewlineNameInjectsField`).
- The hook escapes only quotes and backslashes, so its line is parsed back exactly when
  no value holds a control character (`EventHook.HookRoundTrip`).
- The comment in `pickBest` speaks of 1280x720; the code prefers 640x480.

## Model

| member | source | states |
|---|---|---|
| `SupervisorRecovery.RunsRecover` | supervisor/src/main.cpp:408-450 | On every run whose saves succeed, with one override file per camera and names on one line, resolving any camera afresh from the files gives its size, frame rate and coerced mode, and the enabled flag that was chosen for it, which is the flag that its file holds. |
| `SupervisorRecovery.SettingsSurviveRestart` | supervisor/src/main.cpp:463-479 | After any such run, a camera that the next start finds, at whatever place and among whatever other cameras, comes up with the size, frame rate and coerced mode it had, any chosen enabled flag included. |
| `SupervisorRecovery.FlagAtNextStart` | supervisor/src/main.cpp:446-449 | For any camera of that name at the next start, whatever its ids and formats, the enabled flag is the one chosen, or without one the default that the settings hold then. |
| `SupervisorRecovery.ChosenPersists` | supervisor/src/main.cpp:733-738 | No step but a switch of the camera itself changes the enabled flag chosen for it. |
| `SupervisorRecovery.SwitchChooses` | supervisor/src/main.cpp:733-738 | A switch of a known camera sets the flag chosen for it. |
| `SupervisorRecovery.StepRecovers` | supervisor/src/main.cpp:616-662 | Every single step keeps all cameras recoverable. |
| `SupervisorRecovery.SaveRecovers` | supervisor/src/main.cpp:643-647 | A slot changed by an update, and the file that was saved with the same update, still agree, chosen flag included. |
| `SupervisorRecovery.SaveKeepsOthers` | supervisor/src/camera_probe.cpp:68-94 | Saving for one camera leaves a camera with another file recoverable. |
| `SupervisorRecovery.SettingsSuffice` | supervisor/src/main.cpp:446-449 | Recoverability depends on configuration, chosen flag, vid:pid and formats alone, not on the settings' default. |
| `SupervisorRecovery.LaunchRecovers` | supervisor/src/main.cpp:1059-1078 | A camera just found is recoverable, started or not. |
| `SupervisorRecovery.OtherStepsKeepSettings` | supervisor/src/main.cpp:938-990 | Ticks, hook reports, presence changes, restarts, crashes, credential changes and the sweep change no file and no camera's settings. |
| `SupervisorRecovery.NamesPersist` | supervisor/src/main.cpp:1056-1080 | No step removes, reorders or renames a camera. |
| `SupervisorRecovery.LostSaveExactly` | supervisor/src/main.cpp:643-652 | A slot changed by a mode change whose save failed is recoverable if and only if the values are those that the files give already. |
| `SupervisorRecovery.LostModeExactly` | supervisor/src/main.cpp:643-652 | After any run whose saves succeed, and one mode change whose save then failed, the next start brings the camera up with all that was asked for, if and only if it asked for nothing new, legacy modes aside. |
| `SupervisorRecovery.ModeChangeCanBeLost` | supervisor/src/main.cpp:643-652 | A run of one request after which the camera takes raw video, and Motion JPEG again at the next start. |
| `SupervisorRecovery.LostSwitchExactly` | supervisor/src/main.cpp:737-759 | After any run whose saves succeed, and one switch whose save then failed, the next start brings the camera up as switched, if and only if the flag chosen before, or without one the default at that start, is the same. |
| `SupervisorRecovery.SwitchCanBeLost` | supervisor/src/main.cpp:737-759 | A run of one request after which the camera is disabled, and enabled again at the next start. |
| `SupervisorSaves.NextStartGives` | supervisor/src/main.cpp:408-450 | After any run, whichever saves failed, the next start brings every camera up with exactly this: each field is the one that a request last saved with success, or else what the file gave before the run, or else that of the known cameras, or else the pick from what the camera advertises; of the modes only the two that are offered are left. |
| `SupervisorSaves.FilesHoldSaves` | supervisor/src/camera_probe.cpp:68-94 | On every run, whichever saves failed, each field of a camera's file is the one last saved for it with success, or else what it was. |
| `SupervisorSaves.AskedIs` | supervisor/src/main.cpp:616-628 | A mode change of a known camera asks for its mode and each of its numbers above zero, a switch for its flag, and nothing else asks for anything. |
| `SupervisorSaves.SavedModeComesBack` | supervisor/src/main.cpp:616-662 | After a mode change that was saved, the camera's file holds the request's mode and its numbers above zero and otherwise what it held, and a start that follows brings the camera up with that width, height, rate and mode. |
| `SupervisorSaves.SavedSwitchIsKept` | supervisor/src/main.cpp:733-738 | After a switch that was saved, the camera's file holds the flag, and otherwise what it held. |
| `SupervisorSaves.ModeChangeSurvives` | supervisor/src/main.cpp:616-662 | The numbers and the mode of a saved mode change come back at every next start that finds the camera, if no later mode change of it was saved, whichever other saves failed. |
| `SupervisorSaves.StepSaves` | supervisor/src/main.cpp:643-652 | A step lays what its request asks over the file of the camera it names, if the request is accepted and the file can be written, and leaves every other camera's file alone. |
| `SupervisorSaves.SavedRequestSurvives` | supervisor/src/main.cpp:616-662 | What a request gave that was saved, and no later save of the camera gave again, every next start that finds the camera's name brings it up with, whichever other saves failed. |
| `SupervisorSaves.LastSwitchSurvives` | supervisor/src/main.cpp:718-767 | A camera that was switched on or off with success, and not again since, comes up in the same way at every next start that finds its name, whatever else happened in between, failed saves and other cameras included. |
| `SupervisorRuns.StepKeepsInv` | supervisor/src/main.cpp:935-1084 | Every enabled step keeps: the backoff of each slot is that of its recorded starts, no start came before its gate, the viewer count is that of the recorded reports, and slot i has path i. |
| `SupervisorRuns.RunsKeepInv` | supervisor/src/main.cpp:935-1094 | That invariant holds at every moment of every run. |
| `SupervisorRuns.RestartsAreBounded` | supervisor/src/main.cpp:133-148 | In every run, between two rebuilds of a slot: the delay is 1000 ms doubled per restart and capped at 30000; any n starts in a row span at least 15000 n - 60000 ms; no 60 s hold more than six starts. |
| `SupervisorRuns.ViewersAreMaxSuffix` | supervisor/src/main.cpp:882-905 | In every run a camera's count is the maximum, over the suffixes of the reports since the last reset, of reads minus unreads; it is never negative, and is reads minus unreads if and only if no unread was unmatched. |
| `SupervisorRuns.PathsAreStable` | supervisor/src/main.cpp:463-479 | In every run slot i streams under the text "/webcam" with the decimal number i, paths are distinct, and the next one allocated is that of the next index. |
| `SupervisorRuns.ReportTouchesOneSlot` | supervisor/src/main.cpp:884-897 | Of the camera that streams under "/" and the path, "read" raises the count by one, "unread" lowers it by one if it is above zero, and any other kind leaves it; no other camera and no other field changes. |
| `SupervisorRuns.LaunchKeepsSlot` | supervisor/src/main.cpp:1059-1078 | A new camera starts with bookkeeping that fits its history, under the path it was given. |
| `SupervisorEffects.RestartDoes` | supervisor/src/main.cpp:592-615 | A restart request replaces the process of the camera named: one start is booked under a fresh delay of 1000 ms, no viewers are left, clients get one event that describes the camera, and nothing else changes; without such a camera nothing changes at all. |
| `SupervisorEffects.SetModeDoes` | supervisor/src/main.cpp:616-662 | A mode change with one of the five mode names gives the camera that mode and each of width, height and rate that is above zero, keeps the others and the enabled flag, and replaces the process; with any other mode or name nothing changes. |
| `SupervisorEffects.SwitchDoes` | supervisor/src/main.cpp:718-767 | A switch sets the enabled flag, stops the process, or replaces that of a camera that is there, and touches no other setting. |
| `SupervisorEffects.CredentialsDo` | supervisor/src/main.cpp:768-803 | User and password go into the settings under their own names even when saving fails; MediaMTX is restarted, and its state and then the list of all cameras published, only when saving and writing succeed. |
| `SupervisorEffects.TickLooksAfterMtx` | supervisor/src/main.cpp:944-952 | A tick tries MediaMTX exactly when it is down and due, and publishes what came of it before all else. |
| `SupervisorEffects.TickTellsInOrder` | supervisor/src/main.cpp:955-989 | The events of a tick come slot by slot, at most one for each, which describes the camera as the tick leaves it. |
| `SupervisorEffects.TickBooksStarts` | supervisor/src/main.cpp:968-984 | A tick books exactly the attempts that it makes, of cameras that are present, enabled, down and due, with the delay doubled up to 30000 ms, or 1000 ms again after more than a minute. |
| `SupervisorEffects.HookComposes` | supervisor/src/main.cpp:868-907 | For "read" and "unread" the hook thread composes two events: connected exactly for "read", with the path and the camera's name, and one that describes the camera with its new count. |
| `SupervisorEffects.HookWithoutCamera` | supervisor/src/main.cpp:868-907 | Reports of no camera are passed on with the path in place of a name; other kinds do nothing. |
| `SupervisorEffects.PublishingKeepsOrder` | supervisor/src/main.cpp:906-907 | What the hook thread composed is published once and in order. |
| `SupervisorEffects.PresenceDoes` | supervisor/src/main.cpp:1014-1032 | After a presence check a camera is present if and only if its name was enumerated; an unplugged one is stopped, one that is back and enabled gets a new process, and all else stays. |
| `SupervisorEffects.ChangeIsReported` | supervisor/src/main.cpp:1014-1032 | The list counts as changed if and only if the presence of some camera changes. |
| `SupervisorEffects.PresenceSettles` | supervisor/src/main.cpp:1014-1032 | A second check with the same devices finds no change and changes nothing. |
| `SupervisorEffects.UnpluggedStaysDown` | supervisor/src/main.cpp:955-967 | The tick after an unplugging makes no attempt to start the camera, and leaves it down, without viewers and noted as down. |
| `SupervisorEffects.BootDiscovers` | supervisor/src/main.cpp:408-450 | At startup each enumerated device becomes a camera: each number and the mode from its override file, or else from the known cameras under its vid:pid, or else from the pick; of the modes the two that are offered; and one start if it is enabled. |
| `SupervisorEffects.AppendDiscovers` | supervisor/src/main.cpp:1051-1083 | The same for each hot-added device of a new name, in order and on the next paths; the list that is published then describes all cameras. |
| `SupervisorEffects.ReloadedSettingsCount` | supervisor/src/main.cpp:811-824 | Reloaded settings decide the enabled flag of cameras found after that whose files give none. |
| `SupervisorEffects.ShutdownStopsStarts` | supervisor/src/main.cpp:825-830 | A shutdown request sets the stop flag and nothing else, so no later step starts a child. |
| `SupervisorGate.GateStep` | supervisor/src/main.cpp:592-662 | A step from a state where only present and enabled cameras run keeps that, if and only if it is not a restart or mode change that brings up an unplugged or disabled camera. |
| `SupervisorGate.GateOverRuns` | supervisor/src/main.cpp:545-549 | On every run without such a step a camera publishes only while present and enabled. |
| `SupervisorGate.TickLeavesInactiveRunning` | supervisor/src/main.cpp:955-967 | A tick does not stop the publisher of an unplugged or disabled camera. |
| `SupervisorGate.DisabledCameraCanPublish` | supervisor/src/main.cpp:592-615 | One restart request on a disabled camera is a run that breaks the gate. |
| `SupervisorGate.TickSettles` | supervisor/src/main.cpp:955-989 | Under the gate, after a tick `last_running` is the state of an active camera's process and false otherwise; inactive cameras and those found down have no viewers; each change of `last_running` was announced in this tick with its new value. |
| `SupervisorGate.SlotSettles` | supervisor/src/main.cpp:955-989 | The same for one slot, with the event that the tick publishes. |
| `SupervisorGate.TickLogHolds` | supervisor/src/main.cpp:955-989 | The tick publishes the events of every slot. |
| `SupervisorGate.SilentResetExactly` | supervisor/src/main.cpp:968-988 | A tick changes a viewer count without an event if and only if the publisher of an active camera with viewers is down, and clients were last told that it runs, or not, according to whether this tick's restart will be attempted and succeed. |
| `SupervisorGate.ViewersVanishSilently` | supervisor/src/main.cpp:968-988 | A run of three steps, a viewer, a crash and a tick, in which the count falls from one to zero and nothing is published. |
| `SupervisorGate.NothingStartsAfterStop` | supervisor/src/main.cpp:133-134 | Once the stop flag is set, no step clears it, starts a child, or books a start. |
| `SupervisorGate.SweepLeavesNothing` | supervisor/src/main.cpp:1087-1094 | In every run, from the final sweep on no publisher runs and MediaMTX does not, whatever steps come after it. |
| `SupervisorMtx.StepStarts` | supervisor/src/main.cpp:944-952 | Which steps start MediaMTX, when, and that each start is booked. |
| `SupervisorMtx.MtxStep` | supervisor/src/main.cpp:795-796 | A step keeps MediaMTX's starts gated by their own backoff, if and only if it is not a change of credentials before that backoff has run out. |
| `SupervisorMtx.MtxRestartsAreBounded` | supervisor/src/main.cpp:944-952 | On every run without such a step: the closed form of MediaMTX's delay, any n starts in a row span at least 15000 n - 60000 ms, and no 60 s hold more than six. |
| `SupervisorTold.StepTells` | supervisor/src/main.cpp:955-989 | For every step and every camera that has a slot: whether its process runs afterwards, what its slot notes as told, and what clients are told of it, by an event or a list. |
| `SupervisorTold.NewSlotsTold` | supervisor/src/main.cpp:1051-1083 | Only an append adds slots, and then it publishes a list that tells of every slot what its process does. |
| `SupervisorTold.ToldStep` | supervisor/src/main.cpp:906-907 | With distinct names and the gate, a step keeps, for every camera, the state last told equal to the one noted as told, if and only if it publishes neither a hook event nor a list that differs from a slot's note; a list differs where a process has changed since the note, or a new camera comes up at once. |
| `SupervisorTold.ToldOverRuns` | supervisor/src/main.cpp:985-988 | On every run without such a step and under the gate, clients were last told of each camera what its slot notes. |
| `SupervisorTold.OnlyCamerasAreTold` | supervisor/src/main.cpp:193-200 | In every run clients are told of no camera that has no slot. |
| `SupervisorTold.SoundStep` | supervisor/src/main.cpp:985-988 | With distinct names, a step keeps that clients were last told the truth of every camera whose note fits its process, if and only if it does neither of these: it silently starts or stops a process back to what is noted, of which clients know better; or it publishes a hook event that tells the opposite of what the process does and the slot rightly notes. |
| `SupervisorTold.ClientsKnowAfterTick` | supervisor/src/main.cpp:955-989 | On every run without such a step, hot-added, crashed, unplugged and disabled cameras and lists included, after each tick the last that clients were told of any camera, disabled ones that run aside, is whether it runs. |
| `SupervisorTold.StaleEventIsLast` | supervisor/src/main.cpp:906-907 | A run of five steps after which all is published, the last that clients were told is that the camera runs, and it does not. |
| `SupervisorTold.TrueEventIsLast` | supervisor/src/main.cpp:896-907 | A run of five steps in which the hook thread publishes exactly the present state of the camera, that state differs from the slot's note, and after the next tick clients believe that the camera is down while it runs and is noted as running. |
| `SupervisorTold.ListIsLast` | supervisor/src/main.cpp:795-803 | A run of three steps, a crash, new credentials and a tick, after which the last that clients were told, by a list, is that the camera is down, while it runs and is noted as running. |
| `SupervisorLoop.BookStart` | supervisor/src/main.cpp:133-148 | The in-place bookkeeping of a start is the specification `Book`. |
| `SupervisorLoop.ResolveCameraConfig` | supervisor/src/main.cpp:408-450 | Each field falls through from override file to known cameras to smart pick, a legacy mode is coerced, and the enabled flag falls through to the default. |
| `SupervisorLoop.RequestedUpdate` | supervisor/src/main.cpp:624-628 | The update that a mode change saves: numbers of zero or less stay open. |
| `SupervisorLoop.Reconfigure` | supervisor/src/main.cpp:643-646 | The slot's configuration takes the mode and the numbers given, and keeps the others. |
| `SupervisorLoop.Program.constructor` | supervisor/src/main.cpp:463-549 | Startup reaches the state `Boot`: every enumerated camera resolved, on its own path, started if enabled. |
| `SupervisorLoop.Program.AddCamera` | supervisor/src/main.cpp:1059-1078 | A found camera is appended, resolved and started if enabled; no other slot changes. |
| `SupervisorLoop.Program.StartSlot` | supervisor/src/main.cpp:133-148 | A start books the time unless the stop flag is set, and changes no other slot. |
| `SupervisorLoop.Program.RebuildSlot` | supervisor/src/main.cpp:563-571 | A rebuild gives a stopped process with fresh backoff and no viewers. |
| `SupervisorLoop.Program.RestartSlot` | supervisor/src/main.cpp:602-604 | Stop, rebuild and start together act on one slot as `Restarted`. |
| `SupervisorLoop.Program.StartMediaMtx` | supervisor/src/main.cpp:795-796 | MediaMTX is stopped, and started unless the stop flag is set. |
| `SupervisorLoop.Program.TickCamera` | supervisor/src/main.cpp:955-989 | One slot's part of the tick, with its event; no other slot changes. |
| `SupervisorLoop.Program.TickCameras` | supervisor/src/main.cpp:955-989 | The loop over slots is the tick of every slot, with all events in slot order. |
| `SupervisorLoop.Program.Tick` | supervisor/src/main.cpp:938-990 | Phase 1 is the step `Tick`, MediaMTX first. |
| `SupervisorLoop.Program.FindSlot` | supervisor/src/main.cpp:637-638 | The search finds the first slot of that name. |
| `SupervisorLoop.Program.AnnounceSlot` | supervisor/src/main.cpp:608-609 | Clients are told the slot's state and it is noted as told. |
| `SupervisorLoop.Program.RestartCamera` | supervisor/src/main.cpp:592-615 | The handler succeeds if and only if the name is given and known, and then does the step `RestartCamera`; otherwise nothing changes. |
| `SupervisorLoop.Program.SetMode` | supervisor/src/main.cpp:616-662 | The handler succeeds if and only if name and mode are good and the camera known, and then does the step `SetMode` on slots, events and files; otherwise nothing changes. |
| `SupervisorLoop.Program.SetStreamEnabled` | supervisor/src/main.cpp:718-767 | The same for the step `SetStreamEnabled`, the chosen flag included. |
| `SupervisorLoop.Program.SetViewerCredentials` | supervisor/src/main.cpp:768-803 | The same for new credentials, including those kept in memory when saving fails. |
| `SupervisorLoop.Program.FindSlotByPath` | supervisor/src/main.cpp:884-889 | The search finds the first slot that the hook knows under this path. |
| `SupervisorLoop.Program.CountReport` | supervisor/src/main.cpp:896-897 | A report counts on one slot, never below zero. |
| `SupervisorLoop.Program.OnViewerHook` | supervisor/src/main.cpp:868-905 | The section under the lock is the step `ViewerHook`, also for unknown kinds and paths: the slot is counted and the events are composed. |
| `SupervisorLoop.Program.PublishNext` | supervisor/src/main.cpp:906-907 | After the lock is released the composed events are published one by one, in order, among the events of other threads. |
| `SupervisorLoop.Program.PresenceCamera` | supervisor/src/main.cpp:1014-1032 | Unplugging stops a camera, replugging restarts it if enabled, and the list counts as changed exactly then. |
| `SupervisorLoop.Program.UpdatePresence` | supervisor/src/main.cpp:1014-1032 | The loop treats every slot so, and reports a change if and only if some camera's presence differs. |
| `SupervisorLoop.Program.DiffPresence` | supervisor/src/main.cpp:1004-1037 | Step 1 of phase 2, with exactly the devices of unknown name as new ones. |
| `SupervisorLoop.Program.AppendDevices` | supervisor/src/main.cpp:1053-1080 | Step 3 appends the devices that are new, each on the least free path. |
| `SupervisorLoop.Program.AppendCameras` | supervisor/src/main.cpp:1051-1083 | Step 3 with its event, sent if and only if something changed. |
| `SupervisorLoop.Program.StopCameras` | supervisor/src/main.cpp:1091 | Every publisher is stopped and nothing else changes. |
| `SupervisorLoop.Program.FinishAll` | supervisor/src/main.cpp:1087-1094 | The end of the program is the step `FinalSweep`. |
| `RestartBackoff.DelayClosedForm` | supervisor/src/main.cpp:133-148 | After any starts the delay is 1000 ms doubled per restart, capped at 30000, and the gate is the last start plus the delay before it. |
| `RestartBackoff.Gap` | supervisor/src/main.cpp:136-144 | Between gated starts either more than a minute passed and counting began anew, or at least the capped delay passed and the count rose by one. |
| `RestartBackoff.Spread` | supervisor/src/main.cpp:133-148 | The potential argument: how far any starts in a row spread, with the slack that the restart count leaves. |
| `RestartBackoff.AmortisedBound` | supervisor/src/main.cpp:133-148 | Any n gated starts in a row span at least 15000 n - 60000 ms, despite the reset after a minute. |
| `RestartBackoff.AtMostSixPerMinute` | supervisor/src/main.cpp:133-148 | At most six gated starts fall into any 60 s. |
| `ViewerCount.CountIsMaxSuffix` | supervisor/src/main.cpp:896-897 | The clamped count is the greatest net number of reads over the suffixes of the history. |
| `ViewerCount.CountNeverNegative` | supervisor/src/main.cpp:896-897 | It is never negative. |
| `ViewerCount.CountIsNetExactly` | supervisor/src/main.cpp:896-897 | It is reads minus unreads if and only if no prefix holds more unreads than reads. |
| `PathAlloc.AllocPath` | supervisor/src/main.cpp:924-931 | The unbounded search ends within one probe more than there are slots, at the least free index. |
| `PathAlloc.Pigeonhole` | supervisor/src/main.cpp:924-931 | If the first n paths are all taken, at least n paths are in use. |
| `PathAlloc.PathInjective` | supervisor/src/main.cpp:926 | Different indices give different paths. |
| `PathAlloc.NextPath` | supervisor/src/main.cpp:924-931 | With exactly the first n paths in use, the search yields path n. |
| `CameraConfig.ModeNames` | supervisor/src/camera_config.cpp:5-24 | Every mode's name is read back as that mode, and a known name is printed back as itself. |
| `Slug.SlugifyName` | supervisor/src/camera_enum.cpp:113-126 | The two loops compute the slug. |
| `Slug.SlugsAreFixedPoints` | supervisor/src/camera_enum.cpp:113-126 | Slugs hold letters, digits and dashes only, no two dashes in a row and none at the end, though one may lead; the names that are their own slug are exactly those. |
| `Slug.SlugJoins` | supervisor/src/camera_enum.cpp:113-126 | A run of characters other than ASCII letters and digits becomes one dash between the slugs of what stands before and after it, and nothing at the end. |
| `Slug.LoweredAgree` | supervisor/src/camera_probe.cpp:40-41 | The file system takes two names for one exactly when they differ in the case of ASCII letters alone. |
| `OverrideFile.Overlay` | supervisor/src/camera_probe.cpp:77-83 | Given fields replace, others stay. |
| `OverrideFile.ProbesDir.LoadOverride` | supervisor/src/camera_probe.cpp:38-66 | The reader's loop is the specification `Load`: nothing without a file, else the fold of all lines. |
| `OverrideFile.ProbesDir.ReadOneLine` | supervisor/src/camera_probe.cpp:48-63 | One line sets at most its field; malformed ones change nothing. |
| `OverrideFile.ProbesDir.SaveOverride` | supervisor/src/camera_probe.cpp:68-94 | A successful save replaces this camera's file by the merge with what it held; a failed one changes nothing. |
| `OverrideFile.ReadFieldLines` | supervisor/src/camera_probe.cpp:88-92 | Reading the printed fields lays the override over what was read before them. |
| `OverrideFile.ParsePrint` | supervisor/src/camera_probe.cpp:47-92 | For every name, what is read back is the override over whatever the camera line makes the reader see. |
| `OverrideFile.LoadsBackExactly` | supervisor/src/camera_probe.cpp:87-92 | An override is read back unchanged if and only if the camera line shows no field that it leaves open; a name without a newline shows none. |
| `OverrideFile.CameraLineIsInert` | supervisor/src/camera_probe.cpp:87 | A camera line with a name on one line shows the reader no field. |
| `OverrideFile.NewlineNameInjectsField` | supervisor/src/camera_probe.cpp:87 | A name with a newline makes the reader see any frame rate although none was written. |
| `OverrideFile.LoadSaved` | supervisor/src/camera_probe.cpp:68-94 | After one save, loading gives the update over what was there, and every camera of another file loads as before. |
| `OverrideFile.SharedFileExactly` | supervisor/src/camera_probe.cpp:40-41 | Two cameras share an override file if and only if their slugs agree up to case, since the file system does not tell cases apart. |
| `OverrideFile.LoadSaveAll` | supervisor/src/camera_probe.cpp:68-94 | After any series of saves, loading gives for each field the value given last, or what was there before. |
| `OverrideFile.FileText` | supervisor/src/camera_probe.cpp:85-93 | The whole text of a saved file, line by line, under the lowered slug with ".override.txt"; no other file changes. |
| `OverrideFile.CarriageReturnsDoNotMatter` | supervisor/src/camera_probe.cpp:47-50 | A line that ends in a carriage return is read as the line without it. |
| `Decimal.StoiToString` | supervisor/src/camera_probe.cpp:55-57 | Every 32-bit number survives printing and `std::stoi`. |
| `Decimal.DecimalLaws` | supervisor/src/camera_probe.cpp:89-91 | Printed numbers are decimal, most significant digit first. |
| `Decimal.StoiReads` | supervisor/src/camera_probe.cpp:55-57 | `std::stoi` reads white space, a sign and the digits of a number, whatever follows, and refuses one beyond 32 bits. |
| `Decimal.StoiNeedsDigits` | supervisor/src/camera_probe.cpp:55-57 | Without a digit it refuses. |
| `CameraFormats.UniqueRows` | supervisor/src/camera_formats.cpp:67-75 | Whatever order the sort leaves equal rows in, the result is strictly sorted, holds only rows that were there, and the same tuples, each once. |
| `CameraFormats.KeyOrder` | supervisor/src/camera_formats.cpp:67-70 | The comparison is a strict total order on tuples. |
| `CameraFormats.KeyDecides` | supervisor/src/camera_formats.cpp:67-70 | Kind decides first, then codec, pixel format, width and height. |
| `CameraFormats.PickBest` | supervisor/src/main.cpp:224-246 | The loop with its three candidates and early exit selects the first best row. |
| `CameraFormats.BestIsOptimal` | supervisor/src/main.cpp:224-246 | If any row is wanted, the choice is a wanted row that none beats and that beats all before it, where 640x480 beats all, a size within it any larger one, and then area decides; otherwise there is none. |
| `CameraFormats.PickDefaultFromFormats` | supervisor/src/main.cpp:219-267 | The function computes the default pick. |
| `CameraFormats.PickIsOptimal` | supervisor/src/main.cpp:248-266 | The pick is the best Motion JPEG row, or without one the best raw row, or without either the fixed default. |
| `CameraFormats.PickInNumbers` | supervisor/src/main.cpp:224-266 | In plain numbers: the pick takes the size of the row with 640x480, or else the largest within it, or else the largest, among the Motion JPEG rows, or else among the raw ones, at its highest rate up to 30; without either it is 640x480 at 30. |
| `CameraFormats.PickDependsOnKeys` | supervisor/src/camera_formats.cpp:65-75 | Mode and area of the pick are the same for lists with the same tuples, in any order and with any repetitions. |
| `CameraFormats.ResolutionsAreExact` | ui/WebcamStreamerUi/CameraInfo.cs:77-103 | The list is sorted and offers each size that the mode can take once, and no other. |
| `CameraFormats.SizeSortKey` | ui/WebcamStreamerUi/CameraInfo.cs:97-101 | The key parsed back from a size text is width times 10000 plus height, in 32-bit arithmetic. |
| `CameraFormats.SizeKeyWraps` | ui/WebcamStreamerUi/CameraInfo.cs:97-101 | The key of a text "width x height" is a 32-bit number that differs from width times 10000 plus height by a multiple of 2^32. |
| `CameraFormats.OfferedForMode` | ui/WebcamStreamerUi/CameraInfo.cs:77-103 | Mode name by mode name, the sizes offered are those of the rows of the kind and codec that the mode takes. |
| `CameraFormats.PickIsOffered` | ui/WebcamStreamerUi/CameraInfo.cs:77-103 | When Motion JPEG or raw video is advertised, the default size is in the list for the default mode, also after sorting and uniqueness. |
| `DeviceList.ParseFfmpegDshowList` | supervisor/src/camera_enum.cpp:27-56 | The loop with its flag computes the declarative meaning `Devices`. |
| `DeviceList.DevicesMeaning` | supervisor/src/camera_enum.cpp:21-26 | Each video declaration gives one device, in order, under its name; its alternative name is on the first following line that is not about something else, and empty if that declares a device or there is none. |
| `DeviceList.DevicesSnoc` | supervisor/src/camera_enum.cpp:33-54 | How one more line extends the devices found. |
| `CommandLine.Quote` | supervisor/src/process_supervisor.cpp:12-34 | The loop with its backslash counter prints the quoted form. |
| `CommandLine.BuildCommandLine` | supervisor/src/process_supervisor.cpp:36-44 | The command line is the quoted name and arguments, separated by blanks. |
| `CommandLine.QuotedIfNeeded` | supervisor/src/process_supervisor.cpp:12-15 | Exactly what is empty or holds a blank, a tab or a quote is put in quotes. |
| `CommandLine.PrintedIs` | supervisor/src/process_supervisor.cpp:36-44 | One blank stands between the executable and each argument, and nothing else. |
| `CommandLine.RoundTrip` | supervisor/src/process_supervisor.cpp:11-44 | Parsing by the `CommandLineToArgvW` rules gives back exactly executable and arguments, if and only if none holds a NUL and the executable has no quote and, if it holds a blank or a tab, no backslash at its end. |
| `CommandLine.ReadQuotedArgs` | supervisor/src/process_supervisor.cpp:39-42 | For all arguments, any quotes, blanks and backslash runs included, the printed list is read back. |
| `CommandLine.ProgramNameComesBack` | supervisor/src/process_supervisor.cpp:38 | The first token is read back if and only if the name is safe. |
| `StdoutReader.StdoutReaderLoop` | supervisor/src/process_supervisor.cpp:131-154 | For every chunking the lines emitted are the newline split of the whole output, one carriage return dropped per terminated line, then the last fragment as it is. |
| `StdoutReader.EmitComplete` | supervisor/src/process_supervisor.cpp:139-148 | The inner loop ends, emits the complete lines and carries the rest. |
| `StdoutReader.EmittedLines` | supervisor/src/process_supervisor.cpp:139-154 | Line by line: each terminated line without the carriage return that may end it, then the last fragment as it is. |
| `IpcPipe.IpcServer.CreatePipe` | supervisor/src/ipc_server.cpp:163-170 | A new handle, open and known to nobody else. |
| `IpcPipe.IpcServer.MarkConnected` | supervisor/src/ipc_server.cpp:225-228 | The client is recorded, whatever became of the pipe. |
| `IpcPipe.IpcServer.PublishPipe` | supervisor/src/ipc_server.cpp:177-181 | The new handle becomes current, or is closed if the stop flag is set. |
| `IpcPipe.IpcServer.DropPipe` | supervisor/src/ipc_server.cpp:208-223 | The current handle, if any, is closed and forgotten. |
| `IpcPipe.IpcServer.EndConnection` | supervisor/src/ipc_server.cpp:278-286 | The client is forgotten, and the current handle closed. |
| `IpcPipe.IpcServer.StopClose` | supervisor/src/ipc_server.cpp:127-135 | The stopping thread closes the current handle, if any. |
| `IpcPipe.IpcServer.PickPipe` | supervisor/src/ipc_server.cpp:139-146 | A write uses the current handle of a connected client, or fails. |
| `IpcPipe.StepKeepsInv` | supervisor/src/ipc_server.cpp:114-147 | Each step of the accept thread, the stopping thread and the writers keeps: handles are closed at most once and open exactly while current or unpublished, and who may have taken the pipe away. |
| `IpcPipe.ClosedExactlyOnce` | supervisor/src/ipc_server.cpp:161-288 | In every interleaving at most one handle is open and none is closed twice; when `Stop` has joined, each one created was closed exactly once. |
| `IpcPipe.PickedIsCurrentOrClosed` | supervisor/src/ipc_server.cpp:139-148 | The handle that a writer has picked is still the current one, or has been closed since. |
| `IpcPipe.ConnectedHasPipeExactly` | supervisor/src/ipc_server.cpp:208-228 | A step makes the server believe in a client without a pipe if and only if it is the accept thread recording its client after `Stop` took the pipe away. |
| `IpcPipe.ClientWithoutPipe` | supervisor/src/ipc_server.cpp:208-228 | There is an order of steps in which that happens. |
| `IpcPipe.NoClientAfterStop` | supervisor/src/ipc_server.cpp:114-137 | After `Stop` no client is believed in. |
| `IpcPipe.WriterPicksCurrent` | supervisor/src/ipc_server.cpp:139-146 | A writer picks a handle only while a client is connected, and then the current one. |
| `IpcPipe.ServedOnItsPipe` | supervisor/src/ipc_server.cpp:225-286 | While nothing stops the server, a client that is served is recorded and its pipe is the current one; when it goes, both are forgotten. |
| `IpcPipe.StopTerminates` | supervisor/src/ipc_server.cpp:136 | Once the flag is set, each step of the accept thread brings it closer to its end, which is at most six steps away. |
| `IpcServing.LineReader.Next` | supervisor/src/ipc_server.cpp:35-72 | The buffered reader takes the next line off the bytes still to come, however they are cut into chunks. |
| `IpcServing.ServedExactly` | supervisor/src/ipc_server.cpp:35-72 | The server reads exactly the newline-terminated lines up to the first that is blank or over 256 KiB. |
| `IpcServing.ServedLines` | supervisor/src/ipc_server.cpp:35-72 | Line by line: the k-th line read is the k-th complete one without its carriage returns, and the first not read is blank or over 262144 characters. |
| `IpcServing.ServedOfSent` | supervisor/src/ipc_server.cpp:35-72 | Of any newline-free lines that were sent, the server reads a front part of those it accepts, each as it cleans them, however much has arrived; and all it accepts when all has. |
| `IpcServing.ServedGrows` | supervisor/src/ipc_server.cpp:35-72 | Bytes that arrive later never change the lines read before. |
| `IpcServing.ServeConnection` | supervisor/src/ipc_server.cpp:233-275 | Reply by reply: a request is answered under its own id with the handler's success flag and result or error, bad JSON with a refusal under id 0; the loop ends exactly at the end of input, at the first reply that cannot be written, or at an exception that escapes. |
| `IpcServing.MessagesNeverSplit` | supervisor/src/ipc_server.cpp:139-159 | However writers interleave, the complete lines on the pipe are whole messages, in the order of the write mutex. |
| `IpcServing.WholeLines` | supervisor/src/ipc_server.cpp:139-159 | The complete lines on the pipe are the messages done, and the current one once its newline is out. |
| `IpcCalls.IpcClient.BeginCall` | ui/WebcamStreamerUi/IpcClient.cs:103-109 | A call takes the next id, with 32-bit wrap-around, and waits under it. |
| `IpcCalls.IpcClient.Expire` | ui/WebcamStreamerUi/IpcClient.cs:122-133 | A call that gives up leaves the table with a timeout, unless it has a result, and no other call is touched. |
| `IpcCalls.IpcClient.Receive` | ui/WebcamStreamerUi/IpcClient.cs:76-91 | A reply takes the waiter under its id off the table and completes it, if it has no result yet; anything else changes nothing. |
| `IpcCalls.IpcClient.Pump` | ui/WebcamStreamerUi/IpcClient.cs:51-101 | The pump applies every line in order, skipping events and unreadable ones, until the stream ends or a line makes it or an event handler throw. |
| `IpcCalls.IdsAreUnique` | ui/WebcamStreamerUi/IpcClient.cs:107 | Two calls have the same id if and only if a multiple of 2^32 calls lies between them. |
| `IpcCalls.CompletesOnlyItsWaiter` | ui/WebcamStreamerUi/IpcClient.cs:76-85 | A message completes the call waiting under its id, once, and touches no other. |
| `IpcCalls.CallSettlesExactly` | ui/WebcamStreamerUi/IpcClient.cs:103-134 | On every run of at most 2^32 calls, in which calls begin, expire and are answered in any order, a call waits and has no outcome until an expiry or a reply under its id comes after it began; then it has that first outcome for good. |
| `IpcCalls.TableIsExact` | ui/WebcamStreamerUi/IpcClient.cs:79-133 | The table holds exactly the calls that have begun and were neither answered nor expired. |
| `IpcCalls.OnlyCallsThatBegan` | ui/WebcamStreamerUi/IpcClient.cs:107-109 | Nothing is in the table, or has an outcome, that is not a call that began. |
| `IpcSystem.StepKeepsInv` | supervisor/src/ipc_server.cpp:233-275 | Every step of the client, the bytes under way, the request loop and the publishers keeps: requests are read in the order in which they were written, replies are written in that order under the same ids, and the client has taken the first of them. |
| `IpcSystem.CallsEndToEnd` | ui/WebcamStreamerUi/IpcClient.cs:51-134 | In every state of every run of both ends, in whatever order calls in progress write their lines, under any chunking and among any events and expiries, also with lines that the server refuses: each call that was sent waits, or timed out, or was completed with its own id and with the success flag and the result or error that the handler returned for its own line; and when everything under way has come through, every call whose line the server got to and took for a request has ended. |
| `IpcSystem.EveryCallIsKept` | ui/WebcamStreamerUi/IpcClient.cs:107-119 | In every run the calls that began are those that were sent, each once, and those that are not sent, which wait; nothing else is in the table or has an outcome. |
| `IpcSystem.UnsentCallStays` | ui/WebcamStreamerUi/IpcClient.cs:119-133 | A call whose line is never written stays in the table for good: no reply and no expiry ends it. |
| `IpcSystem.OutcomesStay` | ui/WebcamStreamerUi/IpcClient.cs:79-84 | No call is completed twice, one that timed out stays so when its reply comes late, and only its own expiry makes a call time out. |
| `IpcSystem.QuietIsWithinReach` | supervisor/src/ipc_server.cpp:233-275 | From every reachable state, without a further call or expiry, everything under way can come through: nothing gets stuck. |
| `IpcSystem.WaitingCallCanBeAnswered` | supervisor/src/ipc_server.cpp:233-275 | From every reachable state, a waiting call can still be completed by its reply, if the server gets to its line and takes it for a request. |
| `PlainCodec.PlainIsFaithful` | supervisor/src/ipc_server.cpp:265-274 | A codec exists whose replies are printed on one line and read back. |
| `PlainCodec.FirstCallCanBeAnswered` | ui/WebcamStreamerUi/IpcClient.cs:103-134 | With it, whatever its body, a client's first request of at most 256 KiB goes the whole way and is answered. |
| `LockOrder.ScriptsOrdered` | supervisor/src/main.cpp:938-990 | Everything that each thread does acquires and joins only upwards: state mutex, MediaMTX's reader, write mutex, pipe mutex, with the log mutex above all. |
| `LockOrder.LogOrdered` | supervisor/src/logging.cpp:32-49 | Writing a log line at any point of any script keeps the order, whatever the thread holds. |
| `LockOrder.StepKeepsDiscipline` | supervisor/src/process_supervisor.cpp:166-175 | Every step of every thread, log lines and the spawning and ending of the reader included, keeps that order. |
| `LockOrder.NoWaitCycle` | supervisor/src/ipc_server.cpp:126-147 | In no reachable state do threads wait for each other in a cycle. |
| `LockOrder.SomeoneCanAct` | supervisor/src/main.cpp:882-907 | Whenever a thread is blocked, some thread that holds something can act. |
| `LockOrder.ReportsNeverHoldState` | supervisor/src/main.cpp:906-907 | In no reachable state does the events thread, a probe thread or MediaMTX's reader wait to write to the pipe while it holds the state mutex. |
| `EventHook.DeriveReader` | supervisor/src/mtx_event_hook.cpp:55-69 | Address and port come from the reader id when the address is not given. |
| `EventHook.ReaderAddressSplits` | supervisor/src/mtx_event_hook.cpp:55-69 | A reader id made of an address, in brackets or not, and a port comes apart again. |
| `EventHook.ReaderIs` | supervisor/src/mtx_event_hook.cpp:55-69 | Address and port are those given, or else the reader id is the address, in brackets or not, a colon and the port, or else it is the address alone. |
| `EventHook.JsonEsc` | supervisor/src/mtx_event_hook.cpp:28-36 | Quotes and backslashes get a backslash. |
| `EventHook.EscapedLaws` | supervisor/src/mtx_event_hook.cpp:28-36 | Exactly the quotes and backslashes get a backslash, and nothing is moved. |
| `EventHook.HookMain` | supervisor/src/mtx_event_hook.cpp:71-80 | The output is one line with the eight fields in order. |
| `EventHook.ReadEventLine` | supervisor/src/events_pipe.cpp:76-91 | The line read does not depend on how the bytes are cut into chunks. |
| `EventHook.EventLineIs` | supervisor/src/events_pipe.cpp:84-90 | Within the limit it is the text up to the newline without carriage returns. |
| `EventHook.OverlongIsCut` | supervisor/src/events_pipe.cpp:84-90 | A line of more than 65536 characters is cut after one too many. |
| `EventHook.UpToNewlineIs` | supervisor/src/events_pipe.cpp:84-90 | Only what stands before the first newline counts. |
| `EventHook.ParseEscaped` | supervisor/src/mtx_event_hook.cpp:28-36 | An escaped value is read back by section 7 of RFC 8259 if it holds no control character, and refused otherwise. |
| `EventHook.ParseReceived` | supervisor/src/events_pipe.cpp:93-100 | What came through the pipe parses to the printed members if and only if no value holds a control character. |
| `EventHook.HookRoundTrip` | supervisor/src/events_pipe.cpp:76-100 | For every chunking of a line of at most 65536 characters, the supervisor gets back all eight values, each under its own key, if and only if none holds a control character. |
| `RowReconcile.CameraInfo.UpdateFromJson` | ui/WebcamStreamerUi/CameraInfo.cs:155-194 | Given fields replace, and a changed width or height renews the size shown. |
| `RowReconcile.UpdateReplacesAndKeeps` | ui/WebcamStreamerUi/CameraInfo.cs:155-194 | Field by field: what the element gives is shown, what it lacks stays, and a changed size is shown as width, "x" and height. |
| `RowReconcile.BareRow` | ui/WebcamStreamerUi/MainViewModel.cs:109-128 | A new row of which only the name is given shows the defaults: present, enabled, not running, and nothing else. |
| `RowReconcile.MainViewModel.ApplyCameraList` | ui/WebcamStreamerUi/MainViewModel.cs:104-134 | A snapshot turns the rows into `Reconciled`, unless two rows have one name, when building the dictionary fails and nothing changes. |
| `RowReconcile.MainViewModel.MergeEntries` | ui/WebcamStreamerUi/MainViewModel.cs:109-128 | The loop over the payload updates the rows that the dictionary knows and appends the others. |
| `RowReconcile.MainViewModel.RemoveUnseen` | ui/WebcamStreamerUi/MainViewModel.cs:131-134 | The backward loop keeps exactly the rows named in the payload, in order. |
| `RowReconcile.MainViewModel.ApplyCameraStateEvent` | ui/WebcamStreamerUi/MainViewModel.cs:156-162 | An event updates the first row of its name and nothing else. |
| `RowReconcile.ReconciledRows` | ui/WebcamStreamerUi/MainViewModel.cs:104-134 | With distinct names, rows are distinct, each is as its element says where it says anything, and every element has a row. |
| `RowReconcile.OneRowPerCamera` | ui/WebcamStreamerUi/MainViewModel.cs:104-134 | After a snapshot there is exactly one row per camera, showing every field that its element gives, and no other row. |
| `RowReconcile.ReconcileOrderedOnce` | ui/WebcamStreamerUi/MainViewModel.cs:104-134 | Rows that stay keep their old order, new ones follow in payload order, and applying a snapshot twice is applying it once. |
| `RowReconcile.NextSnapshotSucceedsExactly` | ui/WebcamStreamerUi/MainViewModel.cs:109-128 | Whatever the payload, the snapshot after this one can be applied if and only if no two elements of this one share a name that is new to the table. |
| `RowReconcile.SnapshotsStuck` | ui/WebcamStreamerUi/MainViewModel.cs:109 | Once two rows share a name, every later snapshot fails and changes nothing. |
| `RowReconcile.TableMirrorsSlots` | ui/WebcamStreamerUi/MainViewModel.cs:104-134 | After a snapshot of the supervisor's slots the table has a row for each, with the slot's own name, path, mode, size, rate, flags, restarts, viewers and formats, and no other row. |
| `Lines.OfConcat` | supervisor/src/process_supervisor.cpp:138-148 | Only the unfinished line of a text meets what follows it. |
| `Lines.OfJoin` | supervisor/src/ipc_server.cpp:156-158 | Newline-free lines that were joined are split into the same lines. |
| `Lines.GetLinesIs` | supervisor/src/camera_probe.cpp:47 | `std::getline` yields each line, and what follows the last newline if there is anything. |
| `Lines.CleanLaws` | supervisor/src/ipc_server.cpp:64-70 | Dropping carriage returns drops nothing else and moves nothing. |
| `Lines.DropCRIs` | supervisor/src/process_supervisor.cpp:143-146 | Of the carriage returns at the end of a line one is dropped, and none elsewhere. |
| `Lines.JoinIs` | supervisor/src/ipc_server.cpp:156-158 | Each line that is written is followed by one newline. |
| `StableSort.OrderBySorts` | ui/WebcamStreamerUi/CameraInfo.cs:97-102 | Sorting by a key yields a sorted permutation. |
| `StableSort.OrderByIsStable` | ui/WebcamStreamerUi/CameraInfo.cs:97-102 | Elements of one key keep their order. |

## Left out

- Win32 handles, job objects, overlapped reads and their cancellation, sockets: a child process is a running bit, a pipe is open or closed, bytes arrive in chunks. The handle life cycle of `SupervisedProcess` is not modelled.
- `WaitForRtspReady`, the delays it adds, and a failed wait at startup: attempts may come at any time after the tick read the clock.
- What ffmpeg, MediaMTX, cameras and RTSP do: they are steps of the environment.
- `BuildFFmpegArgs`, a fixed table of arguments, and the URL texts of the table.
- Regular expressions: lines of the device list come classified as declaration, alternative name or neither, and format lines come as records. `ExtractVidPid` and the blacklist of virtual cameras are not modelled.
- JSON beyond objects of strings: requests and messages are what a parameter function parses them to. The parser for the hook's line follows section 7 of RFC 8259 without surrogate pairs, and accepts no white space, which the hook never prints.
- Characters are Dafny characters: UTF-8 and UTF-16 conversions, and text-mode line ends on writing, are not modelled. The reading of a line that ends in a carriage return is.
- Files are written whole or not at all; a write that fails half-way is not modelled.
- The known-cameras database is a fixed map; settings.json is a value that a step replaces, and its sharing with the user interface, which writes its own copy of the credentials, is not modelled.
- `probe-camera` jobs, probe summaries, random credentials, the read-only requests, the installer and the scripts.
- Process ids, alternative names, viewer credentials and reader details in the supervisor's events; seeding the credentials form.
- The stop flag is read once per step: a signal that sets it in the middle of a tick would still stop the remaining starts of that tick. A stop signal during startup is not modelled.
- A stop flag seen while a connection is served ends it as an end of input does, and is not modelled apart.
- Counters and clock values are unbounded integers, except where wrap-around is part of a statement (request ids, the size key).
- `CommandLineToArgvW`'s undocumented treatment of two quotes in a row inside quotes: the model has the documented rules, and printed arguments never need the other.
- `run_command.cpp` holds the same quoting code once more; one copy is modelled.
- Exactly-once closing of the events pipe: its accept loop can close a handle that `Stop` has closed already (`events_pipe.cpp:70-74`), so only its line reading is modelled.
- In the client, taking an id, registering the waiter and printing the request are one step, and sending the line is another; removing a waiter and completing it are one step, and so are a timeout and leaving the table. `ReadLineAsync` also ends lines at carriage returns, which JSON texts never hold unescaped.
- Names are not unique by construction: enumeration does not remove duplicates, so results that look cameras up by name assume distinct names or slugs.
- Windows, tray icon, toasts, clipboard, autostart, single instance: user interface and operating system calls.
- LockOrder.NoWaitCycle: takes writes to a pipe to complete, as the code does when it waits for them without a stop check.
- RowReconcile.CameraInfo.UpdateFromJson: leaves out change notifications.
- IpcPipe.PickedIsCurrentOrClosed: handles are numbered afresh, so that the system may give the value of a closed handle to a new object is not modelled.
- IpcSystem.CallsEndToEnd: takes replies to be printed as one line each that reads back, as JSON texts are (`PlainCodec.PlainIsFaithful` has such a codec), a client's line to carry its own id when the server takes it for a request, and fewer than 2^32 calls. A write by the client that throws is a call that is never sent; a line of which only a part is written is not modelled apart. A write that fails at the server or a connection that ends is a run in which no further server or pump step is taken. A client connects once; one that comes later has a pipe, a table and a request loop of its own, and is another run.
- SupervisorTold.SoundStep: speaks, as the other members of its module do, of published events and lists. What a reply to `get-status` or `list-cameras` tells the client that asked, as the user interface does when it starts and after each MediaMTX event, is not counted; such a reply gives the states of the moment in which it was composed.
- SupervisorGate.SweepLeavesNothing: speaks of publishers and MediaMTX; the children of detached probe threads are outside the model.
