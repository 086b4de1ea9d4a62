/** How often MediaMTX is restarted. Unlike a camera's publisher it is never rebuilt. */
module SupervisorMtx {
  import opened Wrappers
  import opened Folds
  import opened RestartBackoff
  import opened Supervisor
  import opened SupervisorRuns

  /** A change of credentials that restarts MediaMTX before its backoff has run out. */
  predicate EarlyRestart(s: State, step: Step) {
    && step.SetViewerCredentials? && step.user != "" && step.pass != "" && step.saved && step.written
    && !s.stop && step.a.at < s.mtxBackoff.earliestNext
  }

  /** What a step does to MediaMTX's starts: nothing, or one start at this time. */
  function StartedAt(s: State, step: Step): Option<int> {
    if s.stop then None
    else match step
      case Tick(now, mtx, _) => if s.mtxRunning || now < s.mtxBackoff.earliestNext then None else Some(mtx.at)
      case SetViewerCredentials(user, pass, saved, written, a) =>
        if user != "" && pass != "" && saved && written then Some(a.at) else None
      case _ => None
  }

  lemma StepStarts(db: KnownDb, s: State, step: Step)
    ensures var t, at := Next(db, s, step), StartedAt(s, step);
      && t.mtxStarts == (if at.Some? then s.mtxStarts + [at.value] else s.mtxStarts)
      && t.mtxBackoff == (if at.Some? then Book(s.mtxBackoff, at.value) else s.mtxBackoff)
  {
    hide TickSlots, TickLog, FindName, FindPath, View, Views, Restarted, Switched, Stored, AppendSlots, PresenceSlots,
      Book;
  }

  /** The backoff is that of the recorded starts, and the starts were gated. */
  ghost predicate MtxOk(s: State) {
    s.mtxStarts != [] && s.mtxBackoff == After(s.mtxStarts) && Gated(s.mtxStarts)
  }

  /** Exactly when a step starts MediaMTX too early: on a change of credentials
      before the backoff has run out. */
  lemma MtxStep(db: KnownDb, s: State, step: Step)
    requires MtxOk(s) && Enabled(s, step)
    ensures MtxOk(Next(db, s, step)) <==> !EarlyRestart(s, step)
  {
    StepStarts(db, s, step);
    hide Next, Gated, After, Book;
    var at := StartedAt(s, step);
    if at.Some? { GatedSnocExactly(s.mtxStarts, at.value); }
  }

  lemma GatedSnocExactly(starts: seq<int>, at: int)
    requires starts != [] && Gated(starts)
    ensures Gated(starts + [at]) <==> at >= After(starts).earliestNext
    ensures After(starts + [at]) == Book(After(starts), at)
  {
    hide After, Book;
    AfterSnoc(starts, at);
    if at >= After(starts).earliestNext {
      GatedSnoc(starts, at);
    } else {
      var all := starts + [at];
      assert all[..|starts|] == starts && all[|starts|] == at;
    }
  }

  lemma AfterSnoc(starts: seq<int>, at: int)
    ensures After(starts + [at]) == Book(After(starts), at)
  {
    FoldSnoc(Book, FRESH, starts, at);
  }

  lemma MtxBoot(db: KnownDb, o: Origin)
    ensures MtxOk(Boot(db, o))
  {
    GatedSnoc([], o.mtx.at);
    assert [] + [o.mtx.at] == [o.mtx.at];
  }

  lemma {:induction false} MtxOverRuns(db: KnownDb, o: Origin, steps: seq<Step>, k: nat)
    requires IsRun(db, o, steps) && k <= |steps|
    requires forall j | 0 <= j < k :: !EarlyRestart(Reached(db, o, steps[..j]), steps[j])
    ensures MtxOk(Reached(db, o, steps[..k]))
  {
    hide Next, MtxOk, Boot, EarlyRestart, Enabled;
    if k == 0 {
      MtxBoot(db, o);
    } else {
      MtxOverRuns(db, o, steps, k - 1);
      ReachedStep(db, o, steps, k - 1);
      MtxStep(db, Reached(db, o, steps[..k - 1]), steps[k - 1]);
    }
  }

  /** On every run without such an early restart, MediaMTX's restarts are bounded as a
      camera's are: n starts in a row span at least 15 n - 60 seconds, and no minute
      holds more than six. */
  lemma MtxRestartsAreBounded(db: KnownDb, o: Origin, steps: seq<Step>, j: nat, n: nat)
    requires IsRun(db, o, steps)
    requires forall k | 0 <= k < |steps| :: !EarlyRestart(Reached(db, o, steps[..k]), steps[k])
    requires 0 < n && j + n <= |Reached(db, o, steps).mtxStarts|
    ensures var s := Reached(db, o, steps);
      && s.mtxBackoff.delay == Min(1000 * Pow2(s.mtxBackoff.restarts), 30000)
      && s.mtxStarts[j + n - 1] - s.mtxStarts[j] >= 15000 * n - 60000
      && (s.mtxStarts[j + n - 1] - s.mtxStarts[j] <= 60000 ==> n <= 6)
  {
    hide Reached, IsRun, EarlyRestart, Gated, After;
    MtxOverRuns(db, o, steps, |steps|);
    assert steps[..|steps|] == steps;
    var starts := Reached(db, o, steps).mtxStarts;
    DelayClosedForm(starts);
    AmortisedBound(starts, j, n);
    if starts[j + n - 1] - starts[j] <= 60000 { AtMostSixPerMinute(starts, j, j + n - 1); }
  }
}
