/** The client's side of the control pipe: its calls, and how each of them ends. */
module IpcCalls {
  import opened Wrappers
  import opened Folds
  import opened IpcServing
  import Lines

  /** What a line is to the pump: it skips lines that are no JSON or of no known
      type, and ends on one that makes it, or a handler of the event, throw. */
  datatype Message = Response(reply: Reply) | Event(name: string, data: string) | Unreadable | Breaks

  datatype Outcome = Answered(reply: Reply) | TimedOut

  /** `waiters` is the table of pending calls; `outcomes` holds the result that each
      call's task has taken. A task takes only its first result. */
  datatype Client = Client(nextId: int, waiters: set<int>, outcomes: map<int, Outcome>)

  function Increment32(n: int): int {
    if n == 0x7fff_ffff then -0x8000_0000 else n + 1
  }

  function Called(c: Client): Client {
    var id := Increment32(c.nextId);
    Client(id, c.waiters + {id}, c.outcomes - {id})
  }

  function Settle(c: Client, id: int, o: Outcome): Client {
    if id in c.outcomes then c else c.(outcomes := c.outcomes[id := o])
  }

  function Received(c: Client, m: Message): Client {
    if m.Response? && m.reply.id in c.waiters
    then Settle(c.(waiters := c.waiters - {m.reply.id}), m.reply.id, Answered(m.reply))
    else c
  }

  function Expired(c: Client, id: int): Client {
    if id in c.waiters then Settle(c, id, TimedOut).(waiters := c.waiters - {id}) else c
  }

  class IpcClient {
    var nextId: int
    var waiters: set<int>
    var outcomes: map<int, Outcome>

    ghost function State(): Client
      reads this
    {
      Client(nextId, waiters, outcomes)
    }

    constructor ()
      ensures State() == Client(0, {}, map[])
    {
      nextId, waiters, outcomes := 0, {}, map[];
    }

    /** Registers a waiter under a new id. */
    method BeginCall() returns (id: int)
      modifies this
      ensures State() == Called(old(State())) && id == nextId
    {
      nextId := if nextId == 0x7fff_ffff then -0x8000_0000 else nextId + 1;
      id := nextId;
      waiters := waiters + {id};
      outcomes := outcomes - {id};
    }

    /** A call gives up: its task fails, and it leaves the table. */
    method Expire(id: int)
      modifies this
      ensures State() == Expired(old(State()), id)
    {
      if id !in waiters { return; }
      if id !in outcomes { outcomes := outcomes[id := TimedOut]; }
      waiters := waiters - {id};
    }

    method Receive(m: Message)
      modifies this
      ensures State() == Received(old(State()), m)
    {
      if m.Response? && m.reply.id in waiters {
        waiters := waiters - {m.reply.id};
        if m.reply.id !in outcomes { outcomes := outcomes[m.reply.id := Answered(m.reply)]; }
      }
    }

    /** The message pump: one message per line, until the stream ends or one of them breaks it. */
    method Pump(lines: seq<string>, decode: string -> Message)
      modifies this
      ensures State() == Fold(Received, old(State()), UpToBreak(Mapped(lines, decode)))
    {
      ghost var all := Mapped(lines, decode);
      for i := 0 to |lines|
        modifies this
        invariant State() == Fold(Received, old(State()), all[..i])
        invariant forall j | 0 <= j < i :: !all[j].Breaks?
      {
        var m := decode(lines[i]);
        if m.Breaks? {
          UpToBreakIs(all, i);
          return;
        }
        assert all[..i + 1] == all[..i] + [all[i]];
        FoldSnoc(Received, old(State()), all[..i], all[i]);
        Receive(m);
      }
      UpToBreakIs(all, |all|);
    }
  }

  function UpToBreak(messages: seq<Message>): seq<Message> {
    if messages == [] || messages[0].Breaks? then [] else [messages[0]] + UpToBreak(messages[1..])
  }

  lemma {:induction false} UpToBreakIs(messages: seq<Message>, i: nat)
    requires i <= |messages| && forall j | 0 <= j < i :: !messages[j].Breaks?
    requires i < |messages| ==> messages[i].Breaks?
    ensures UpToBreak(messages) == messages[..i]
  {
    if i > 0 {
      UpToBreakIs(messages[1..], i - 1);
      assert messages[..i] == [messages[0]] + messages[1..][..i - 1];
    }
  }

  // ----- Ids -----

  const CALLS: nat := 0x1_0000_0000  // until ids repeat

  /** The id of the n-th call of a new client. */
  function CallId(n: nat): int {
    (n + 0x8000_0000) % CALLS - 0x8000_0000
  }

  function CalledTimes(c: Client, n: nat): Client {
    if n == 0 then c else Called(CalledTimes(c, n - 1))
  }

  lemma {:induction false} IdAfter(c: Client, n: nat)
    requires -0x8000_0000 <= c.nextId <= 0x7fff_ffff
    ensures CalledTimes(c, n).nextId == (c.nextId + n + 0x8000_0000) % CALLS - 0x8000_0000
  {
    if n > 0 { IdAfter(c, n - 1); }
  }

  /** The ids of two calls differ, unless exactly a multiple of 2^32 calls lies between them. */
  lemma IdsAreUnique(c: Client, m: nat, n: nat)
    requires -0x8000_0000 <= c.nextId <= 0x7fff_ffff
    ensures CalledTimes(c, m).nextId == CalledTimes(c, n).nextId <==> (m - n) % CALLS == 0
  {
    hide CalledTimes;
    IdAfter(c, m);
    IdAfter(c, n);
    SameResidue(c.nextId + m + 0x8000_0000, c.nextId + n + 0x8000_0000);
  }

  lemma SameResidue(a: int, b: int)
    ensures a % CALLS == b % CALLS <==> (a - b) % CALLS == 0
  {
  }

  lemma CallIdsDiffer(m: nat, n: nat)
    requires m < n < m + CALLS
    ensures CallId(m) != CallId(n)
  {
    SameResidue(m + 0x8000_0000, n + 0x8000_0000);
  }

  lemma NextCallId(c: Client, n: nat)
    requires c.nextId == CallId(n)
    ensures Called(c).nextId == CallId(n + 1)
  {
  }

  /** A message completes at most the call that waits under the message's id:
      every other call keeps its place and its outcome, and a call that has an
      outcome keeps that one. */
  lemma CompletesOnlyItsWaiter(c: Client, m: Message, id: int)
    ensures var d := Received(c, m);
      && (!(m.Response? && m.reply.id == id) ==>
            (id in d.waiters <==> id in c.waiters) && (id in d.outcomes <==> id in c.outcomes)
            && (id in c.outcomes ==> d.outcomes[id] == c.outcomes[id]))
      && (id in c.outcomes ==> id in d.outcomes && d.outcomes[id] == c.outcomes[id])
      && (m.Response? && m.reply.id == id && id in c.waiters && id !in c.outcomes ==>
            id !in d.waiters && id in d.outcomes && d.outcomes[id] == Answered(m.reply))
      && (id !in c.waiters && id !in c.outcomes ==> id !in d.outcomes)
  {
  }

  // ----- How every call ends -----

  datatype ClientStep = Begin | Expire(id: int) | Receive(message: Message)

  function Next(c: Client, step: ClientStep): Client {
    match step
    case Begin => Called(c)
    case Expire(id) => Expired(c, id)
    case Receive(m) => Received(c, m)
  }

  const NEW_CLIENT := Client(0, {}, map[])

  function Reached(steps: seq<ClientStep>): Client {
    Fold(Next, NEW_CLIENT, steps)
  }

  function Begins(steps: seq<ClientStep>): (n: nat)
    ensures n <= |steps|
  {
    if steps == [] then 0 else Begins(steps[..|steps| - 1]) + if steps[|steps| - 1].Begin? then 1 else 0
  }

  /** The outcome that one step offers to the call with this id. */
  function Offered(step: ClientStep, id: int): Option<Outcome> {
    if step == Expire(id) then Some(TimedOut)
    else if step.Receive? && step.message.Response? && step.message.reply.id == id then Some(Answered(step.message.reply))
    else None
  }

  /** The first outcome offered to the call. */
  function FirstOffered(steps: seq<ClientStep>, id: int): Option<Outcome> {
    if steps == [] then None
    else if Offered(steps[0], id).Some? then Offered(steps[0], id)
    else FirstOffered(steps[1..], id)
  }

  /** The id that a call got when it began with step `b`. */
  function IdOf(steps: seq<ClientStep>, b: nat): int
    requires b < |steps|
  {
    CallId(Begins(steps[..b + 1]))
  }

  lemma {:induction false} NextIdIs(steps: seq<ClientStep>)
    ensures Reached(steps).nextId == CallId(Begins(steps))
  {
    if steps != [] {
      var n := |steps| - 1;
      NextIdIs(steps[..n]);
      NextCallId(Reached(steps[..n]), Begins(steps[..n]));
    }
  }

  lemma {:induction false} BeginsGrow(steps: seq<ClientStep>, i: nat)
    requires i <= |steps|
    ensures Begins(steps[..i]) <= Begins(steps)
    decreases |steps|
  {
    if i == |steps| {
      assert steps[..i] == steps;
    } else {
      var n := |steps| - 1;
      BeginsGrow(steps[..n], i);
      assert steps[..n][..i] == steps[..i];
    }
  }

  lemma {:induction false} FirstOfferedSnoc(steps: seq<ClientStep>, step: ClientStep, id: int)
    ensures FirstOffered(steps + [step], id) == FirstOffered(steps, id).Else(Offered(step, id))
  {
    hide Offered;
    if steps == [] {
      assert [step][1..] == [];
    } else {
      assert (steps + [step])[1..] == steps[1..] + [step];
      FirstOfferedSnoc(steps[1..], step, id);
    }
  }

  /** The client is in line with what was offered to one call so far. */
  predicate Stands(c: Client, id: int, first: Option<Outcome>) {
    match first
    case None => id in c.waiters && id !in c.outcomes
    case Some(o) => id !in c.waiters && id in c.outcomes && c.outcomes[id] == o
  }

  lemma StepStands(c: Client, step: ClientStep, id: int, first: Option<Outcome>)
    requires Stands(c, id, first) && (step.Begin? ==> Called(c).nextId != id)
    ensures Stands(Next(c, step), id, first.Else(Offered(step, id)))
  {
  }

  /** On every run of at most 2^32 calls, in which calls begin, expire and are
      answered in any order: as long as nothing was offered to a call since it
      began, it waits and has no outcome; and after that its outcome is the first
      one offered, for good. So a call is answered only by a reply under its id
      that came after it began, at most once, and stays timed out when its reply
      comes late. */
  lemma {:induction false} CallSettlesExactly(steps: seq<ClientStep>, b: nat)
    requires b < |steps| && steps[b].Begin? && Begins(steps) <= CALLS
    ensures Stands(Reached(steps), IdOf(steps, b), FirstOffered(steps[b + 1..], IdOf(steps, b)))
    decreases |steps|
  {
    var n := |steps| - 1;
    var front, step, id := steps[..n], steps[n], IdOf(steps, b);
    assert steps == front + [step];
    FoldSnoc(Next, NEW_CLIENT, front, step);
    NextIdIs(steps);
    hide CallId, Reached, Stands, Fold;
    if b == n {
      assert steps[..b + 1] == steps && steps[b + 1..] == [];
      BeginStands(Reached(front));
    } else {
      assert front[..b + 1] == steps[..b + 1] && steps[b + 1..] == front[b + 1..] + [step];
      BeginsGrow(front, b + 1);
      CallSettlesExactly(front, b);
      FirstOfferedSnoc(front[b + 1..], step, id);
      if step.Begin? {
        BeginsPositive(steps, b);
        CallIdsDiffer(Begins(steps[..b + 1]), Begins(steps));
      }
      StepStands(Reached(front), step, id, FirstOffered(front[b + 1..], id));
    }
  }

  lemma BeginStands(c: Client)
    ensures Stands(Called(c), Called(c).nextId, None)
  {
  }

  lemma BeginsPositive(steps: seq<ClientStep>, b: nat)
    requires b < |steps| && steps[b].Begin?
    ensures Begins(steps[..b + 1]) > 0
  {
  }

  /** Some call began under this id. */
  predicate Begun(steps: seq<ClientStep>, id: int) {
    exists b | 0 <= b < |steps| :: steps[b].Begin? && IdOf(steps, b) == id
  }

  lemma BegunSnoc(steps: seq<ClientStep>, step: ClientStep, id: int)
    ensures Begun(steps, id) ==> Begun(steps + [step], id)
    ensures step.Begin? ==> Begun(steps + [step], CallId(Begins(steps + [step])))
  {
    var all := steps + [step];
    hide CallId, Begins;
    if Begun(steps, id) {
      var b :| 0 <= b < |steps| && steps[b].Begin? && IdOf(steps, b) == id;
      assert all[..b + 1] == steps[..b + 1] && all[b].Begin? && IdOf(all, b) == id;
    }
    if step.Begin? {
      var b := |steps|;
      assert all[..b + 1] == all && all[b].Begin? && IdOf(all, b) == CallId(Begins(all));
    }
  }

  /** The table holds nothing but calls that began, and so do the outcomes. */
  lemma {:induction false} OnlyCallsThatBegan(steps: seq<ClientStep>, id: int)
    ensures id in Reached(steps).waiters || id in Reached(steps).outcomes ==> Begun(steps, id)
  {
    if steps != [] {
      var n := |steps| - 1;
      assert steps == steps[..n] + [steps[n]];
      OnlyCallsThatBegan(steps[..n], id);
      FoldSnoc(Next, NEW_CLIENT, steps[..n], steps[n]);
      NextIdIs(steps);
      BegunSnoc(steps[..n], steps[n], id);
      hide Begun, Fold, CallId;
    }
  }

  /** The table holds exactly the calls that have begun and were neither answered nor expired. */
  lemma TableIsExact(steps: seq<ClientStep>, id: int)
    requires Begins(steps) <= CALLS
    ensures id in Reached(steps).waiters
       <==> exists b | 0 <= b < |steps| :: steps[b].Begin? && IdOf(steps, b) == id && FirstOffered(steps[b + 1..], id).None?
  {
    hide Reached, FirstOffered, CallId, Begins;
    OnlyCallsThatBegan(steps, id);
    forall b | 0 <= b < |steps| && steps[b].Begin? && IdOf(steps, b) == id
      ensures id in Reached(steps).waiters <==> FirstOffered(steps[b + 1..], id).None?
    {
      CallSettlesExactly(steps, b);
    }
  }
}
