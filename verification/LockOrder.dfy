/**
 Who waits for whom. The threads of the supervisor take mutexes and join other
 threads; a thread that can be joined is a resource that it holds itself until
 it ends. Writes to a pipe are taken to complete.
 */
module LockOrder {
  import opened Wrappers
  import opened Folds

  datatype Resource =
    | IpcThread      // joined by the control pipe's Stop
    | EventsThread   // joined by the events pipe's Stop
    | StateMutex
    | MtxReader      // MediaMTX's stdout reader, joined when MediaMTX is stopped
    | WriteMutex
    | PipeMutex
    | EventsMutex    // the events pipe's own mutex
    | LogMutex       // taken for each line of the log

  datatype Thread = Main | Ipc | Events | Probe(n: nat) | Reader

  datatype Op = Acquire(r: Resource) | Release(r: Resource) | Join(r: Resource) | SpawnReader

  // ----- What the threads do -----

  function Rank(r: Resource): nat {
    match r
    case IpcThread => 0
    case EventsThread => 1
    case StateMutex => 2
    case MtxReader => 3
    case WriteMutex => 4
    case PipeMutex => 5
    case EventsMutex => 6
    case LogMutex => 7
  }

  /** One message on the control pipe. */
  const WRITE := [Acquire(WriteMutex), Acquire(PipeMutex), Release(PipeMutex), Release(WriteMutex)]

  /** One line of the log. */
  const LOG := [Acquire(LogMutex), Release(LogMutex)]

  function Writes(n: nat): seq<Op> {
    if n == 0 then [] else WRITE + Writes(n - 1)
  }

  /** Stopping MediaMTX joins its reader; a start that succeeds makes a new one. */
  function MtxRestart(stops: bool, starts: bool): seq<Op> {
    (if stops then [Join(MtxReader)] else []) + if starts then [SpawnReader] else []
  }

  datatype Task =
    | Tick(stops: bool, starts: bool, events: nat)      // phase 1 of the supervision loop
    | Phase2(events: nat)                      // its locked sections
    | ShutDown                                 // stop both pipes, then MediaMTX
    | PipeSection                              // a section of the accept loop
    | Request(stops: bool, starts: bool, events: nat)   // a handler, then the reply
    | HookReport(events: nat)                  // the events handler publishes after unlocking
    | EventsSection
    | Publish(events: nat)                     // probe threads and the stdout reader
    | EndThread(life: Resource)

  function Script(task: Task): seq<Op> {
    match task
    case Tick(stops, starts, events) =>
      [Acquire(StateMutex)] + MtxRestart(stops, starts) + Writes(events) + [Release(StateMutex)]
    case Phase2(events) => [Acquire(StateMutex)] + Writes(events) + [Release(StateMutex)]
    case ShutDown =>
      [Acquire(PipeMutex), Release(PipeMutex), Join(IpcThread), Acquire(EventsMutex), Release(EventsMutex),
       Join(EventsThread), Join(MtxReader)]
    case PipeSection => [Acquire(PipeMutex), Release(PipeMutex)]
    case Request(stops, starts, events) =>
      [Acquire(StateMutex)] + MtxRestart(stops, starts) + Writes(events) + ([Release(StateMutex)] + Writes(1))
    case HookReport(events) => [Acquire(StateMutex), Release(StateMutex)] + Writes(events)
    case EventsSection => [Acquire(EventsMutex), Release(EventsMutex)]
    case Publish(events) => Writes(events)
    case EndThread(life) => [Release(life)]
  }

  /** What a thread holds by being alive. */
  function Life(t: Thread): set<Resource> {
    match t
    case Ipc => {IpcThread}
    case Events => {EventsThread}
    case Reader => {MtxReader}
    case _ => {}
  }

  predicate Does(t: Thread, task: Task) {
    match t
    case Main => task.Tick? || task.Phase2? || task.ShutDown?
    case Ipc => task.PipeSection? || task.Request? || task == EndThread(IpcThread)
    case Events => task.EventsSection? || task.HookReport? || task == EndThread(EventsThread)
    case Probe(_) => task.Publish?
    case Reader => task.Publish? || task == EndThread(MtxReader)
  }

  // ----- The world -----

  datatype World = World(owner: map<Resource, Thread>, ops: map<Thread, seq<Op>>)

  function Ops(w: World, t: Thread): seq<Op> {
    if t in w.ops then w.ops[t] else []
  }

  function Held(w: World, t: Thread): set<Resource> {
    set r | r in w.owner && w.owner[r] == t
  }

  /** What a thread is about to wait for. */
  function Wanted(w: World, t: Thread): Option<Resource> {
    var ops := Ops(w, t);
    if ops != [] && (ops[0].Acquire? || ops[0].Join?) then Some(ops[0].r) else None
  }

  predicate Blocked(w: World, t: Thread) {
    Wanted(w, t).Some? && Wanted(w, t).value in w.owner
  }

  datatype Step = Begin(t: Thread, task: Task) | Act(t: Thread) | Log(t: Thread)

  /** A blocked thread stays where it is, and an idle one may take up any task of
      its kind while it is alive. At any point of its work, holding whatever it
      holds, a thread may come to write a line of the log. */
  function Next(w: World, step: Step): World {
    var ops := Ops(w, step.t);
    if step.Log? then
      if !Blocked(w, step.t) && Life(step.t) <= Held(w, step.t) && LogMutex !in Held(w, step.t)
      then w.(ops := w.ops[step.t := LOG + ops]) else w
    else if step.Begin? then
      if ops == [] && Does(step.t, step.task) && Life(step.t) <= Held(w, step.t)
      then w.(ops := w.ops[step.t := Script(step.task)]) else w
    else if ops == [] || Blocked(w, step.t) then w
    else
      var v := w.(ops := w.ops[step.t := ops[1..]]);
      match ops[0]
      case Acquire(r) => v.(owner := w.owner[r := step.t])
      case Release(r) => v.(owner := w.owner - {r})
      case Join(r) => v
      case SpawnReader => if MtxReader in w.owner then v else v.(owner := w.owner[MtxReader := Reader])
  }

  const START := World(map[IpcThread := Ipc, EventsThread := Events, MtxReader := Reader], map[])

  function Reached(steps: seq<Step>): World {
    Fold(Next, START, steps)
  }

  // ----- The discipline -----

  /** Along the rest of a script, everything waited for ranks above everything held;
      the thread gives up its life only at the very end, and then holds nothing else. */
  predicate Ordered(t: Thread, held: set<Resource>, ops: seq<Op>)
    decreases |ops|
  {
    if ops == [] then held <= Life(t)
    else match ops[0]
      case Acquire(r) => (forall h | h in held :: Rank(h) < Rank(r)) && Ordered(t, held + {r}, ops[1..])
      case Join(r) => (forall h | h in held :: Rank(h) < Rank(r)) && Ordered(t, held, ops[1..])
      case Release(r) => r in held && (r in Life(t) ==> |ops| == 1) && Ordered(t, held - {r}, ops[1..])
      case SpawnReader => t != Reader && Ordered(t, held, ops[1..])
  }

  lemma WriteOrdered(t: Thread, held: set<Resource>, rest: seq<Op>)
    requires forall h | h in held :: Rank(h) < Rank(WriteMutex)
    requires Ordered(t, held, rest)
    ensures Ordered(t, held, WRITE + rest)
  {
    var ops := WRITE + rest;
    var h1 := held + {WriteMutex};
    var h2 := h1 + {PipeMutex};
    assert ops[1..][1..][1..][1..] == rest;
    assert h2 - {PipeMutex} == h1 && h1 - {WriteMutex} == held;
    assert ops[1..][1..][1..][0] == Release(WriteMutex) && ops[1..][1..][0] == Release(PipeMutex);
    assert Ordered(t, h1, ops[1..][1..][1..]);
    assert Ordered(t, h2, ops[1..][1..]);
    assert ops[1..][0] == Acquire(PipeMutex);
    assert Ordered(t, h1, ops[1..]);
  }

  lemma {:induction false} WritesOrdered(t: Thread, held: set<Resource>, n: nat, rest: seq<Op>)
    requires forall h | h in held :: Rank(h) < Rank(WriteMutex)
    requires Ordered(t, held, rest)
    ensures Ordered(t, held, Writes(n) + rest)
  {
    hide Ordered;
    if n == 0 {
      assert Writes(0) + rest == rest;
    } else {
      WritesOrdered(t, held, n - 1, rest);
      WriteOrdered(t, held, Writes(n - 1) + rest);
      assert Writes(n) + rest == WRITE + (Writes(n - 1) + rest);
    }
  }

  lemma RestartOrdered(t: Thread, held: set<Resource>, stops: bool, starts: bool, rest: seq<Op>)
    requires t != Reader && forall h | h in held :: Rank(h) < Rank(MtxReader)
    requires Ordered(t, held, rest)
    ensures Ordered(t, held, MtxRestart(stops, starts) + rest)
  {
    var spawned := (if starts then [SpawnReader] else []) + rest;
    assert starts ==> spawned[1..] == rest;
    assert !starts ==> spawned == rest;
    assert Ordered(t, held, spawned);
    var ops := MtxRestart(stops, starts) + rest;
    assert stops ==> ops[1..] == spawned;
    assert !stops ==> ops == spawned;
  }

  lemma UnlockOrdered(t: Thread, rest: seq<Op>)
    requires (t == Main || t == Ipc || t == Events) && Ordered(t, Life(t), rest)
    ensures Ordered(t, Life(t) + {StateMutex}, [Release(StateMutex)] + rest)
  {
    assert ([Release(StateMutex)] + rest)[1..] == rest;
    assert (Life(t) + {StateMutex}) - {StateMutex} == Life(t);
  }

  lemma LockOrdered(t: Thread, body: seq<Op>)
    requires (t == Main || t == Ipc || t == Events) && Ordered(t, Life(t) + {StateMutex}, body)
    ensures Ordered(t, Life(t), [Acquire(StateMutex)] + body)
  {
    assert ([Acquire(StateMutex)] + body)[1..] == body;
  }

  /** A section under the state mutex, with what follows it. */
  lemma LockedOrdered(t: Thread, stops: bool, starts: bool, events: nat, rest: seq<Op>)
    requires t == Main || t == Ipc
    requires Ordered(t, Life(t), rest)
    ensures Ordered(t, Life(t),
      [Acquire(StateMutex)] + MtxRestart(stops, starts) + Writes(events) + ([Release(StateMutex)] + rest))
  {
    hide Ordered, Writes, MtxRestart;
    var held := Life(t) + {StateMutex};
    var end := [Release(StateMutex)] + rest;
    UnlockOrdered(t, rest);
    WritesOrdered(t, held, events, end);
    RestartOrdered(t, held, stops, starts, Writes(events) + end);
    LockOrdered(t, MtxRestart(stops, starts) + (Writes(events) + end));
    assert [Acquire(StateMutex)] + MtxRestart(stops, starts) + Writes(events) + end
        == [Acquire(StateMutex)] + (MtxRestart(stops, starts) + (Writes(events) + end));
  }

  lemma ShutDownOrdered()
    ensures Ordered(Main, {}, Script(ShutDown))
  {
    var s3 := [Join(EventsThread), Join(MtxReader)];
    var s2 := [Release(EventsMutex)] + s3;
    var s1 := [Join(IpcThread), Acquire(EventsMutex)] + s2;
    assert s3[1..][1..] == [] && s2[1..] == s3 && s1[1..][1..] == s2;
    assert Ordered(Main, {}, s3);
    assert {EventsMutex} - {EventsMutex} == {} && {} + {EventsMutex} == {EventsMutex};
    assert Ordered(Main, {EventsMutex}, s2);
    assert Ordered(Main, {}, s1[1..]);
    assert Ordered(Main, {}, s1);
    var s := Script(ShutDown);
    assert s[1..][1..] == s1;
    assert {PipeMutex} - {PipeMutex} == {} && {} + {PipeMutex} == {PipeMutex};
    assert Ordered(Main, {PipeMutex}, s[1..]);
  }

  lemma HookReportOrdered(events: nat)
    ensures Ordered(Events, Life(Events), Script(HookReport(events)))
  {
    assert Ordered(Events, Life(Events), []);
    hide Ordered, Writes;
    WritesOrdered(Events, Life(Events), events, []);
    assert Writes(events) + [] == Writes(events);
    UnlockOrdered(Events, Writes(events));
    LockOrdered(Events, [Release(StateMutex)] + Writes(events));
    assert Script(HookReport(events)) == [Acquire(StateMutex)] + ([Release(StateMutex)] + Writes(events));
  }

  /** Every script that the program runs keeps the order. */
  lemma ScriptsOrdered(t: Thread, task: Task)
    requires Does(t, task)
    ensures Ordered(t, Life(t), Script(task))
  {
    match task
    case Tick(stops, starts, events) =>
      LockedOrdered(t, stops, starts, events, []);
      assert [Release(StateMutex)] + [] == [Release(StateMutex)];
    case Phase2(events) =>
      LockedOrdered(t, false, false, events, []);
      assert [Release(StateMutex)] + [] == [Release(StateMutex)];
      assert [Acquire(StateMutex)] + MtxRestart(false, false) == [Acquire(StateMutex)];
    case ShutDown => ShutDownOrdered();
    case PipeSection =>
      assert (Life(t) + {PipeMutex}) - {PipeMutex} == Life(t);
    case Request(stops, starts, events) =>
      WritesOrdered(t, Life(t), 1, []);
      assert Writes(1) + [] == Writes(1);
      LockedOrdered(t, stops, starts, events, Writes(1));
    case HookReport(events) => HookReportOrdered(events);
    case EventsSection =>
      assert (Life(t) + {EventsMutex}) - {EventsMutex} == Life(t);
    case Publish(events) =>
      WritesOrdered(t, Life(t), events, []);
      assert Writes(events) + [] == Writes(events);
    case EndThread(life) =>
  }

  /** Every thread follows its script with what it holds, and one that is not alive is idle. */
  ghost predicate Disciplined(w: World) {
    && (forall t :: Ordered(t, Held(w, t), Ops(w, t)))
    && (forall t :: !(Life(t) <= Held(w, t)) ==> Ops(w, t) == [])
  }

  lemma BeginKeepsDiscipline(w: World, t: Thread, task: Task)
    requires Disciplined(w)
    ensures Disciplined(Next(w, Begin(t, task)))
  {
    var v := Next(w, Begin(t, task));
    if v != w {
      ScriptsOrdered(t, task);
      assert Ordered(t, Held(w, t), []);
      assert Held(w, t) == Life(t);
      hide Ordered, Script, Does, Life;
      forall u ensures Ordered(u, Held(v, u), Ops(v, u)) && (!(Life(u) <= Held(v, u)) ==> Ops(v, u) == []) {
        assert Held(v, u) == Held(w, u);
      }
    }
  }

  lemma LogOrdered(t: Thread, held: set<Resource>, rest: seq<Op>)
    requires LogMutex !in held && Ordered(t, held, rest)
    ensures Ordered(t, held, LOG + rest)
  {
    var ops := LOG + rest;
    assert ops[1..][1..] == rest && ops[1..][0] == Release(LogMutex);
    assert held + {LogMutex} - {LogMutex} == held;
    assert Ordered(t, held + {LogMutex}, ops[1..]);
    assert forall h | h in held :: Rank(h) < Rank(LogMutex);
  }

  lemma LogKeepsDiscipline(w: World, t: Thread)
    requires Disciplined(w)
    ensures Disciplined(Next(w, Log(t)))
  {
    var v := Next(w, Log(t));
    if v != w {
      assert Ordered(t, Held(w, t), Ops(w, t));
      LogOrdered(t, Held(w, t), Ops(w, t));
      hide Ordered, Life;
      forall u ensures Ordered(u, Held(v, u), Ops(v, u)) && (!(Life(u) <= Held(v, u)) ==> Ops(v, u) == []) {
        assert Held(v, u) == Held(w, u);
      }
    }
  }

  lemma StepKeepsDiscipline(w: World, step: Step)
    requires Disciplined(w)
    ensures Disciplined(Next(w, step))
  {
    var t, v, ops := step.t, Next(w, step), Ops(w, step.t);
    if step.Log? {
      LogKeepsDiscipline(w, t);
    } else if step.Begin? {
      BeginKeepsDiscipline(w, t, step.task);
    } else if ops != [] && !Blocked(w, t) {
      assert Ordered(t, Held(w, t), ops);
      ActKeepsDiscipline(w, t);
    }
  }

  lemma ActKeepsDiscipline(w: World, t: Thread)
    requires Disciplined(w) && Ops(w, t) != [] && !Blocked(w, t)
    ensures Disciplined(Next(w, Act(t)))
  {
    var v, ops := Next(w, Act(t)), Ops(w, t);
    assert Ordered(t, Held(w, t), ops) && Life(t) <= Held(w, t);
    forall u ensures Ordered(u, Held(v, u), Ops(v, u)) && (!(Life(u) <= Held(v, u)) ==> Ops(v, u) == []) {
      assert Ordered(u, Held(w, u), Ops(w, u));
      if u == t {
        assert ops[0].Acquire? ==> Held(v, t) == Held(w, t) + {ops[0].r};
        assert ops[0].Release? ==> Held(v, t) == Held(w, t) - {ops[0].r};
        assert ops[0].Join? || ops[0].SpawnReader? ==> Held(v, t) == Held(w, t);
        LifeEndsLast(t, Held(w, t), ops);
      } else if u == Reader && ops[0].SpawnReader? && MtxReader !in w.owner {
        assert Held(v, u) == Held(w, u) + {MtxReader};
        assert !(Life(u) <= Held(w, u));
      } else {
        assert Held(v, u) == Held(w, u);
      }
    }
  }

  /** A thread gives up its life only with the last step of a script. */
  lemma LifeEndsLast(t: Thread, held: set<Resource>, ops: seq<Op>)
    requires Ordered(t, held, ops) && ops != [] && Life(t) <= held
    ensures ops[0].Release? && ops[0].r in Life(t) ==> ops[1..] == []
  {
  }

  lemma {:induction false} ReachedDisciplined(steps: seq<Step>)
    ensures Disciplined(Reached(steps))
  {
    if steps != [] {
      var n := |steps| - 1;
      ReachedDisciplined(steps[..n]);
      StepKeepsDiscipline(Reached(steps[..n]), steps[n]);
    } else {
      forall t ensures Held(START, t) == Life(t) { }
    }
  }

  // ----- No deadlock -----

  /** Each thread of the cycle waits for something that the next one holds. */
  predicate WaitCycle(w: World, ts: seq<Thread>) {
    ts != [] && forall i | 0 <= i < |ts| ::
      Blocked(w, ts[i]) && w.owner[Wanted(w, ts[i]).value] == ts[if i + 1 < |ts| then i + 1 else 0]
  }

  lemma WaitsUpwards(w: World, t: Thread, u: Thread)
    requires Disciplined(w)
    requires Blocked(w, t) && w.owner[Wanted(w, t).value] == u && Wanted(w, u).Some?
    ensures Rank(Wanted(w, t).value) < Rank(Wanted(w, u).value)
  {
    assert Ordered(u, Held(w, u), Ops(w, u));
    assert Wanted(w, t).value in Held(w, u);
  }

  lemma {:induction false} CycleRises(w: World, ts: seq<Thread>, i: nat)
    requires Disciplined(w) && WaitCycle(w, ts) && i < |ts|
    ensures Rank(Wanted(w, ts[i]).value) >= Rank(Wanted(w, ts[0]).value) + i
  {
    if i > 0 {
      CycleRises(w, ts, i - 1);
      WaitsUpwards(w, ts[i - 1], ts[i]);
    }
  }

  /** In no reachable state do threads wait for each other in a cycle. */
  lemma NoWaitCycle(steps: seq<Step>, ts: seq<Thread>)
    ensures !WaitCycle(Reached(steps), ts)
  {
    var w := Reached(steps);
    ReachedDisciplined(steps);
    if WaitCycle(w, ts) {
      CycleRises(w, ts, |ts| - 1);
      WaitsUpwards(w, ts[|ts| - 1], ts[0]);
    }
  }

  /** Whenever a thread is blocked, following the holders leads to a thread that
      holds something and can act. */
  lemma SomeoneCanAct(steps: seq<Step>, t: Thread) returns (u: Thread)
    requires Blocked(Reached(steps), t)
    ensures Held(Reached(steps), u) != {} && !Blocked(Reached(steps), u)
  {
    ReachedDisciplined(steps);
    u := FollowHolders(Reached(steps), t);
  }

  lemma {:induction false} FollowHolders(w: World, t: Thread) returns (u: Thread)
    requires Disciplined(w) && Blocked(w, t)
    ensures Held(w, u) != {} && !Blocked(w, u)
    decreases 7 - Rank(Wanted(w, t).value)
  {
    u := w.owner[Wanted(w, t).value];
    assert Wanted(w, t).value in Held(w, u);
    if Blocked(w, u) {
      WaitsUpwards(w, t, u);
      u := FollowHolders(w, u);
    }
  }

  // ----- Reports are published without the state mutex -----

  /** The threads that publish what others are to know of. */
  predicate Reports(t: Thread) {
    t.Events? || t.Probe? || t.Reader?
  }

  /** Along the rest of a script no message is begun while the state mutex is held. */
  predicate Unlocked(held: set<Resource>, ops: seq<Op>)
    decreases |ops|
  {
    if ops == [] then true
    else match ops[0]
      case Acquire(r) => (r == WriteMutex ==> StateMutex !in held) && Unlocked(held + {r}, ops[1..])
      case Join(r) => (r == WriteMutex ==> StateMutex !in held) && Unlocked(held, ops[1..])
      case Release(r) => Unlocked(held - {r}, ops[1..])
      case SpawnReader => Unlocked(held, ops[1..])
  }

  lemma {:induction false} WritesUnlocked(held: set<Resource>, n: nat)
    requires StateMutex !in held && WriteMutex !in held && PipeMutex !in held
    ensures Unlocked(held, Writes(n))
  {
    if n > 0 {
      WritesUnlocked(held, n - 1);
      var ops := Writes(n);
      assert ops == WRITE + Writes(n - 1);
      var rest := ops[1..][1..][1..][1..];
      assert rest == Writes(n - 1);
      var h1 := held + {WriteMutex};
      var h2 := h1 + {PipeMutex};
      assert h2 - {PipeMutex} == h1 && h1 - {WriteMutex} == held;
      assert ops[1..][1..][1..][0] == Release(WriteMutex) && ops[1..][1..][0] == Release(PipeMutex);
      assert Unlocked(h1, ops[1..][1..][1..]);
      assert Unlocked(h2, ops[1..][1..]);
      assert ops[1..][0] == Acquire(PipeMutex) && Unlocked(h1, ops[1..]);
    }
  }

  lemma ScriptUnlocked(t: Thread, task: Task)
    requires Reports(t) && Does(t, task)
    ensures Unlocked(Life(t), Script(task))
  {
    match task
    case HookReport(events) =>
      var s := Script(task);
      assert s[1..][0] == Release(StateMutex) && s[1..][1..] == Writes(events);
      assert Life(t) + {StateMutex} - {StateMutex} == Life(t);
      WritesUnlocked(Life(t), events);
      hide Writes;
      assert Unlocked(Life(t) + {StateMutex}, s[1..]);
    case Publish(events) => WritesUnlocked(Life(t), events);
    case EventsSection =>
      var s := Script(task);
      assert s[1..][0] == Release(EventsMutex) && s[1..][1..] == [];
      assert Unlocked(Life(t) + {EventsMutex}, s[1..]);
    case _ =>
  }

  ghost predicate ReportsUnlocked(w: World) {
    forall t | Reports(t) :: Unlocked(Held(w, t), Ops(w, t))
  }

  lemma LogUnlocked(held: set<Resource>, rest: seq<Op>)
    requires LogMutex !in held && Unlocked(held, rest)
    ensures Unlocked(held, LOG + rest)
  {
    var ops := LOG + rest;
    assert ops[1..][1..] == rest && ops[1..][0] == Release(LogMutex);
    assert held + {LogMutex} - {LogMutex} == held;
    assert Unlocked(held + {LogMutex}, ops[1..]);
  }

  lemma BeginKeepsUnlocked(w: World, step: Step)
    requires Disciplined(w) && ReportsUnlocked(w) && !step.Act?
    ensures ReportsUnlocked(Next(w, step))
  {
    var t, v := step.t, Next(w, step);
    if v != w {
      assert Ordered(t, Held(w, t), Ops(w, t));
      if step.Begin? {
        assert Held(w, t) == Life(t);
        if Reports(t) { ScriptUnlocked(t, step.task); }
      } else if Reports(t) {
        LogUnlocked(Held(w, t), Ops(w, t));
      }
      hide Unlocked, Script, Does, Life, Ordered;
      forall u | Reports(u) ensures Unlocked(Held(v, u), Ops(v, u)) { assert Held(v, u) == Held(w, u); }
    }
  }

  lemma ActKeepsUnlocked(w: World, t: Thread)
    requires Disciplined(w) && ReportsUnlocked(w) && Ops(w, t) != [] && !Blocked(w, t)
    ensures ReportsUnlocked(Next(w, Act(t)))
  {
    var v, ops := Next(w, Act(t)), Ops(w, t);
    assert Ordered(t, Held(w, t), ops);
    forall u | Reports(u) ensures Unlocked(Held(v, u), Ops(v, u)) {
      assert Unlocked(Held(w, u), Ops(w, u));
      if u == t {
        assert ops[0].Acquire? ==> Held(v, t) == Held(w, t) + {ops[0].r};
        assert ops[0].Release? ==> Held(v, t) == Held(w, t) - {ops[0].r};
        assert ops[0].Join? || ops[0].SpawnReader? ==> Held(v, t) == Held(w, t);
      } else if Ops(w, u) != [] {
        assert Life(u) <= Held(w, u);
        assert Held(v, u) == Held(w, u);
      }
    }
  }

  lemma {:induction false} ReachedUnlocked(steps: seq<Step>)
    ensures ReportsUnlocked(Reached(steps))
  {
    if steps != [] {
      var n := |steps| - 1;
      ReachedUnlocked(steps[..n]);
      ReachedDisciplined(steps[..n]);
      var w, step := Reached(steps[..n]), steps[n];
      hide Next, ReportsUnlocked, Disciplined;
      if !step.Act? {
        BeginKeepsUnlocked(w, step);
      } else if Ops(w, step.t) != [] && !Blocked(w, step.t) {
        ActKeepsUnlocked(w, step.t);
      } else {
        assert Next(w, step) == w by { NothingHappens(w, step.t); }
      }
    }
  }

  lemma NothingHappens(w: World, t: Thread)
    requires Ops(w, t) == [] || Blocked(w, t)
    ensures Next(w, Act(t)) == w
  {
  }

  /** In no reachable state does a thread that reports wait to write to the pipe while it
      holds the state mutex. */
  lemma ReportsNeverHoldState(steps: seq<Step>, t: Thread)
    requires Reports(t)
    ensures Wanted(Reached(steps), t) == Some(WriteMutex) ==> StateMutex !in Held(Reached(steps), t)
  {
    ReachedUnlocked(steps);
    assert Unlocked(Held(Reached(steps), t), Ops(Reached(steps), t));
  }
}
