/**
 Life cycle of the control pipe. The accept thread, the thread that stops the
 server and the writers share one pipe handle. Each section that holds the pipe
 mutex is one step here, and so is each read of the stop flag outside it.
 */
module IpcPipe {
  import opened Wrappers
  import opened Folds

  /** What the threads share. Handles are numbered in the order of their creation;
      `closes` counts, for each, how often it was closed. */
  datatype Shared = Shared(pipe: Option<nat>, connected: bool, stop: bool, closes: seq<nat>) {
    predicate Valid() {
      pipe.Some? ==> pipe.value < |closes|
    }
  }

  function Close(s: Shared, p: nat): Shared {
    if p < |s.closes| then s.(closes := s.closes[p := s.closes[p] + 1]) else s
  }

  /** Close the current pipe, if there is one, and forget it. */
  function ClosePipe(s: Shared): Shared {
    if s.pipe.Some? then Close(s, s.pipe.value).(pipe := None) else s
  }

  // ----- The sections under the mutex -----

  function Published(s: Shared, p: nat): Shared {
    if s.stop then Close(s, p) else s.(pipe := Some(p))
  }

  function Ended(s: Shared): Shared {
    ClosePipe(s.(connected := false))
  }

  function StopClosed(s: Shared): Shared {
    if s.pipe.Some? then ClosePipe(s).(connected := false) else s
  }

  class IpcServer {
    var pipe: Option<nat>
    var clientConnected: bool
    var stop: bool
    var closes: seq<nat>

    ghost function State(): Shared
      reads this
    {
      Shared(pipe, clientConnected, stop, closes)
    }

    constructor ()
      ensures State() == Shared(None, false, false, [])
    {
      pipe, clientConnected, stop, closes := None, false, false, [];
    }

    method CreatePipe() returns (p: nat)
      modifies this
      ensures p == old(|closes|) && State() == old(State()).(closes := old(closes) + [0])
    {
      p := |closes|;
      closes := closes + [0];
    }

    method CloseHandle(p: nat)
      requires p < |closes|
      modifies this`closes
      ensures State() == Close(old(State()), p)
    {
      closes := closes[p := closes[p] + 1];
    }

    /** The new pipe becomes the current one, unless the server was stopped meanwhile. */
    method PublishPipe(p: nat) returns (goOn: bool)
      requires p < |closes|
      modifies this
      ensures State() == Published(old(State()), p) && goOn == !old(stop)
    {
      if stop { CloseHandle(p); return false; }
      pipe := Some(p);
      return true;
    }

    method DropPipe()
      requires State().Valid()
      modifies this
      ensures State() == ClosePipe(old(State()))
    {
      if pipe.Some? {
        CloseHandle(pipe.value);
        pipe := None;
      }
    }

    method MarkConnected()
      modifies this
      ensures State() == old(State()).(connected := true)
    {
      clientConnected := true;
    }

    method EndConnection()
      requires State().Valid()
      modifies this
      ensures State() == Ended(old(State()))
    {
      clientConnected := false;
      DropPipe();
    }

    method StopClose()
      requires State().Valid()
      modifies this
      ensures State() == StopClosed(old(State()))
    {
      if pipe.Some? {
        CloseHandle(pipe.value);
        pipe := None;
        clientConnected := false;
      }
    }

    /** The handle that a write is to use; none when no client is connected. */
    method PickPipe() returns (p: Option<nat>)
      ensures p == if clientConnected then pipe else None
    {
      if !clientConnected || pipe.None? { return None; }
      return pipe;
    }
  }

  // ----- All interleavings -----

  /** Where the accept thread stands. */
  datatype Accept =
    | Top                               // before reading the stop flag
    | Creating                          // before creating a pipe
    | Made(p: nat)                      // holds a handle that nobody else knows
    | Waiting(p: nat)                   // for a client
    | Waited(p: nat, connected: bool)   // before reading the stop flag again
    | Aborting(p: nat)                  // saw the stop flag
    | Failed(p: nat)                    // saw no stop flag, and no client
    | Accepted(p: nat)                  // saw no stop flag, and a client
    | Serving(p: nat)
    | Ending(p: nat)
    | Done

  datatype Stopper = NotCalled | Flagged | Cleared | Joined

  /** The writer that holds the write mutex, if any. */
  datatype Writer = Free | Entered | Picked(p: nat)

  datatype Machine = Machine(shared: Shared, accept: Accept, stopper: Stopper, writer: Writer)

  const START := Machine(Shared(None, false, false, []), Top, NotCalled, Free)

  /** `luck` is the environment's choice: whether a pipe is created, whether a client comes. */
  datatype Step = AcceptStep(luck: bool) | StopStep | WriterStep

  function AcceptNext(m: Machine, luck: bool): Machine {
    var s := m.shared;
    match m.accept
    case Top => m.(accept := if s.stop then Done else Creating)
    case Creating =>
      if luck then m.(shared := s.(closes := s.closes + [0]), accept := Made(|s.closes|)) else m.(accept := Top)
    case Made(p) => m.(shared := Published(s, p), accept := if s.stop then Done else Waiting(p))
    case Waiting(p) => m.(accept := Waited(p, luck))
    case Waited(p, connected) =>
      m.(accept := if s.stop then Aborting(p) else if connected then Accepted(p) else Failed(p))
    case Aborting(p) => m.(shared := ClosePipe(s), accept := Done)
    case Failed(p) => m.(shared := ClosePipe(s), accept := Top)
    case Accepted(p) => m.(shared := s.(connected := true), accept := Serving(p))
    case Serving(p) => m.(accept := Ending(p))
    case Ending(p) => m.(shared := Ended(s), accept := Top)
    case Done => m
  }

  function StopNext(m: Machine): Machine {
    match m.stopper
    case NotCalled => m.(shared := m.shared.(stop := true), stopper := Flagged)
    case Flagged => m.(shared := StopClosed(m.shared), stopper := Cleared)
    case Cleared => if m.accept == Done then m.(stopper := Joined) else m
    case Joined => m
  }

  function WriterNext(m: Machine): Machine {
    match m.writer
    case Free => m.(writer := Entered)
    case Entered =>
      m.(writer := if m.shared.connected && m.shared.pipe.Some? then Picked(m.shared.pipe.value) else Free)
    case Picked(_) => m.(writer := Free)
  }

  function Next(m: Machine, step: Step): Machine {
    match step
    case AcceptStep(luck) => AcceptNext(m, luck)
    case StopStep => StopNext(m)
    case WriterStep => WriterNext(m)
  }

  function Reached(steps: seq<Step>): Machine {
    Fold(Next, START, steps)
  }

  predicate IsOpen(m: Machine, p: nat) {
    p < |m.shared.closes| && m.shared.closes[p] == 0
  }

  /** The handle that is open, if any, is the accept thread's. */
  function Owned(a: Accept): Option<nat> {
    match a
    case Top => None
    case Creating => None
    case Done => None
    case Made(p) => Some(p)
    case Waiting(p) => Some(p)
    case Waited(p, _) => Some(p)
    case Aborting(p) => Some(p)
    case Failed(p) => Some(p)
    case Accepted(p) => Some(p)
    case Serving(p) => Some(p)
    case Ending(p) => Some(p)
  }

  predicate Inv(m: Machine) {
    var s := m.shared;
    // a handle is closed at most once, and open exactly while it is current or not yet published
    && (forall p | 0 <= p < |s.closes| :: s.closes[p] <= 1)
    && (forall p | 0 <= p < |s.closes| :: s.closes[p] == 0 <==> s.pipe == Some(p) || m.accept == Made(p))
    && s.Valid() && (m.accept.Made? ==> m.accept.p < |s.closes| && s.pipe.None?)
    && (s.pipe.Some? ==> s.pipe == Owned(m.accept))
    // only the stopping thread takes the pipe away under the accept thread's feet
    && (m.stopper.NotCalled? || m.stopper.Flagged? ==> !m.accept.Made? ==> s.pipe == Owned(m.accept))
    && (m.stopper.Cleared? || m.stopper.Joined? ==> s.pipe.None?)
    && (s.stop <==> !m.stopper.NotCalled?)
    && (m.accept.Done? || m.accept.Aborting? ==> s.stop)
    && (m.stopper.Joined? ==> m.accept.Done?)
    && (s.connected ==> m.accept.Serving? || m.accept.Ending?)
    && (m.accept.Serving? || m.accept.Ending? ==> s.connected || m.stopper.Cleared?)
    // a picked handle is the current one, or one already closed
    && (m.writer.Picked? ==> m.writer.p < |s.closes| && (s.pipe == Some(m.writer.p) || s.closes[m.writer.p] == 1))
  }

  lemma WriterKeepsInv(m: Machine)
    requires Inv(m)
    ensures Inv(WriterNext(m))
  {
  }

  lemma StopKeepsInv(m: Machine)
    requires Inv(m)
    ensures Inv(StopNext(m))
  {
  }

  /** The accept thread gives up its handle. */
  lemma DropKeepsInv(m: Machine, luck: bool)
    requires Inv(m) && (m.accept.Aborting? || m.accept.Failed? || m.accept.Ending?)
    ensures Inv(AcceptNext(m, luck))
  {
  }

  lemma PublishKeepsInv(m: Machine, luck: bool)
    requires Inv(m) && (m.accept.Creating? || m.accept.Made?)
    ensures Inv(AcceptNext(m, luck))
  {
  }

  lemma AcceptKeepsInv(m: Machine, luck: bool)
    requires Inv(m)
    ensures Inv(AcceptNext(m, luck))
  {
    if m.accept.Aborting? || m.accept.Failed? || m.accept.Ending? {
      DropKeepsInv(m, luck);
    } else if m.accept.Creating? || m.accept.Made? {
      PublishKeepsInv(m, luck);
    }
  }

  lemma StepKeepsInv(m: Machine, step: Step)
    requires Inv(m)
    ensures Inv(Next(m, step))
  {
    hide Inv, AcceptNext, StopNext, WriterNext;
    match step
    case AcceptStep(luck) => AcceptKeepsInv(m, luck);
    case StopStep => StopKeepsInv(m);
    case WriterStep => WriterKeepsInv(m);
  }

  lemma {:induction false} ReachedInv(steps: seq<Step>)
    ensures Inv(Reached(steps))
  {
    if steps != [] {
      var n := |steps| - 1;
      ReachedInv(steps[..n]);
      StepKeepsInv(Reached(steps[..n]), steps[n]);
    }
  }

  // ----- Theorems over all interleavings -----

  /** At every moment at most one pipe handle is open, and none was closed twice;
      when Stop has returned, each one ever created was closed exactly once. */
  lemma ClosedExactlyOnce(steps: seq<Step>)
    ensures var m := Reached(steps);
      && (forall p | 0 <= p < |m.shared.closes| :: m.shared.closes[p] <= 1)
      && (forall p: nat, q: nat | IsOpen(m, p) && IsOpen(m, q) :: p == q)
      && (m.stopper.Joined? ==> forall p | 0 <= p < |m.shared.closes| :: m.shared.closes[p] == 1)
  {
    ReachedInv(steps);
  }

  /** The handle that a writer has picked is still the current one, or has been
      closed since. Handles are numbered afresh here; that the system may give a
      closed handle's value to a new object is not part of this model. */
  lemma PickedIsCurrentOrClosed(steps: seq<Step>)
    ensures var m := Reached(steps);
      m.writer.Picked? ==> m.shared.pipe == Some(m.writer.p) || (m.writer.p < |m.shared.closes| && !IsOpen(m, m.writer.p))
  {
    ReachedInv(steps);
  }

  predicate ConnectedHasPipe(s: Shared) {
    s.connected ==> s.pipe.Some?
  }

  /** Exactly when a step makes the server believe in a client without a pipe:
      when the accept thread records the client after Stop took the pipe away. */
  lemma ConnectedHasPipeExactly(steps: seq<Step>, step: Step)
    requires ConnectedHasPipe(Reached(steps).shared)
    ensures ConnectedHasPipe(Next(Reached(steps), step).shared)
      <==> !(step.AcceptStep? && Reached(steps).accept.Accepted? && Reached(steps).stopper.Cleared?)
  {
    ReachedInv(steps);
  }

  /** The order of steps in which it happens: Stop runs between the accept
      thread's last look at the flag and its note that a client is there. */
  lemma ClientWithoutPipe()
    ensures exists steps :: !ConnectedHasPipe(Reached(steps).shared)
  {
    var a := AcceptStep(true);
    var toAccepted := ReachByAccepting(5);
    assert Reached(toAccepted) == Machine(Shared(Some(0), false, false, [0]), Accepted(0), NotCalled, Free);
    FoldSnoc(Next, START, toAccepted, StopStep);
    FoldSnoc(Next, START, toAccepted + [StopStep], StopStep);
    FoldSnoc(Next, START, toAccepted + [StopStep] + [StopStep], a);
    assert !ConnectedHasPipe(Reached(toAccepted + [StopStep] + [StopStep] + [a]).shared);
  }

  function Accepting(n: nat): Machine {
    if n == 0 then START else AcceptNext(Accepting(n - 1), true)
  }

  lemma {:induction false} ReachByAccepting(n: nat) returns (steps: seq<Step>)
    ensures Reached(steps) == Accepting(n)
  {
    if n == 0 {
      steps := [];
    } else {
      var front := ReachByAccepting(n - 1);
      FoldSnoc(Next, START, front, AcceptStep(true));
      steps := front + [AcceptStep(true)];
    }
  }

  /** No client is believed in any more once Stop has returned. */
  lemma NoClientAfterStop(steps: seq<Step>)
    ensures Reached(steps).stopper.Joined? ==> !Reached(steps).shared.connected
  {
    ReachedInv(steps);
  }

  function Rank(a: Accept): nat {
    match a
    case Done => 0
    case Top => 1
    case Made(_) => 2
    case Creating => 3
    case Ending(_) => 2
    case Serving(_) => 3
    case Accepted(_) => 4
    case Failed(_) => 2
    case Aborting(_) => 1
    case Waited(_, _) => 5
    case Waiting(_) => 6
  }

  /** Once the stop flag is set, every step of the accept thread brings it closer
      to its end, so the join in Stop waits for at most six of them. */
  lemma StopTerminates(m: Machine, luck: bool)
    requires Inv(m) && m.shared.stop && !m.accept.Done?
    ensures Rank(AcceptNext(m, luck).accept) < Rank(m.accept) <= 6
    ensures AcceptNext(m, luck).shared.stop
  {
  }

  /** A writer picks a handle only while a client is connected, and then the current one. */
  lemma WriterPicksCurrent(m: Machine, step: Step)
    requires !m.writer.Picked? && Next(m, step).writer.Picked?
    ensures m.shared.connected && m.shared.pipe == Some(Next(m, step).writer.p) && Next(m, step).shared == m.shared
  {
  }

  /** While the server is not being stopped, a client that came is served on the pipe
      that it connected to, writers find that pipe, and when it goes both are forgotten. */
  lemma ServedOnItsPipe(steps: seq<Step>)
    ensures var m := Reached(steps);
      && (m.accept.Serving? && m.stopper.NotCalled? ==> m.shared.connected && m.shared.pipe == Some(m.accept.p))
      && (m.accept.Ending? ==> var t := Next(m, AcceptStep(true)); !t.shared.connected && t.shared.pipe.None?)
  {
    ReachedInv(steps);
  }
}
