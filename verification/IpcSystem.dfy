/**
 Both ends of the control pipe together: a client that begins and gives up calls,
 the bytes under way in both directions, the server's request loop, and the
 threads that publish events on the same pipe.
 */
module IpcSystem {
  import opened Wrappers
  import opened Folds
  import opened IpcServing
  import C = IpcCalls
  import Lines

  /** How requests and replies are written and read. */
  datatype Codec = Codec(
    request: Request -> string, parse: string -> Parsed, reply: Reply -> string, decode: string -> C.Message)

  /** A printed reply is one line and is read back, as with JSON texts, which escape newlines. */
  ghost predicate Faithful(codec: Codec) {
    forall r :: Lines.NewlineFree(codec.reply(r)) && codec.decode(codec.reply(r)) == C.Response(r)
  }

  /** `begun` counts the calls that have begun; `ready` holds the lines of those that
      are registered and not sent; `sent` are the request lines in the order in which
      they were written, and `ids` the ids of their calls; `up` and `down` are the bytes
      that have arrived at the server and at the client; `answers` are the handler's
      outcomes so far, one for each request handled; `pending` is the reply that the
      request loop is about to write; `read` counts the lines that the client's pump
      has taken. */
  datatype System = System(
    client: C.Client, begun: nat, ready: map<int, string>, sent: seq<string>, ids: seq<int>,
    up: string, answers: seq<(bool, string)>, pending: Option<Reply>, output: Output, down: string, read: nat)

  datatype Step =
    | Call(body: string)
    | Send(id: int)
    | Expire(id: int)
    | CarryUp(count: nat)
    | Serve(answer: (bool, string))
    | StartReply
    | StartEvent(text: string)
    | Push(count: nat)
    | Finish
    | CarryDown(count: nat)
    | Pump

  const START := System(C.NEW_CLIENT, 0, map[], [], [], "", [], None, NO_OUTPUT, "", 0)

  /** The first `n` characters, or all. */
  function UpTo(s: string, n: nat): string {
    if n <= |s| then s[..n] else s
  }

  /** What the server makes of a request line. */
  function Seen(codec: Codec, line: string): Parsed {
    codec.parse(Lines.Clean(line))
  }

  /** A line of its own, in which the server, if it takes it for a request, finds the call's id. */
  predicate Own(codec: Codec, line: string, id: int) {
    Lines.NewlineFree(line) && (Seen(codec, line).Fields? ==> Seen(codec, line).request.id == id)
  }

  /** A call takes the next id, registers its waiter and prints its request. */
  function DoCall(codec: Codec, y: System, body: string): System {
    var c := C.Called(y.client);
    var request := Request(c.nextId, body);
    var line := codec.request(request);
    if Own(codec, line, c.nextId) && y.begun + 1 < C.CALLS
    then y.(client := c, begun := y.begun + 1, ready := y.ready[c.nextId := line]) else y
  }

  /** Some call that is registered writes its line; one whose write fails never does. */
  function DoSend(y: System, id: int): System {
    if id in y.ready
    then y.(ready := y.ready - {id}, sent := y.sent + [y.ready[id]], ids := y.ids + [id]) else y
  }

  /** A call gives up; it does not before its line has been written. */
  function DoExpire(y: System, id: int): System {
    if id in y.ids then y.(client := C.Expired(y.client, id)) else y
  }

  /** The request loop handles the next complete line, unless a reply is still to be
      written; it ends for good at a line that it refuses or cannot handle. */
  function DoServe(codec: Codec, y: System, answer: (bool, string)): System {
    var lines := Served(y.up);
    if y.pending.None? && |y.answers| < |lines| && !codec.parse(lines[|y.answers|]).Escapes?
    then y.(answers := y.answers + [answer], pending := Some(ReplyTo(codec.parse(lines[|y.answers|]), answer))) else y
  }

  function DoStartReply(codec: Codec, y: System): System {
    if y.pending.Some? && y.output.current.None?
    then y.(output := Write(y.output, Begin(codec.reply(y.pending.value))), pending := None) else y
  }

  /** Another thread publishes a message that is no reply. */
  function DoStartEvent(codec: Codec, y: System, text: string): System {
    var m := codec.decode(text);
    if y.output.current.None? && Lines.NewlineFree(text) && (m.Event? || m.Unreadable?)
    then y.(output := Write(y.output, Begin(text))) else y
  }

  function DoPump(codec: Codec, y: System): System {
    var lines := Lines.Of(y.down).lines;
    if y.read < |lines| then y.(client := C.Received(y.client, codec.decode(lines[y.read])), read := y.read + 1) else y
  }

  function Next(codec: Codec, y: System, step: Step): System {
    match step
    case Call(body) => DoCall(codec, y, body)
    case Send(id) => DoSend(y, id)
    case Expire(id) => DoExpire(y, id)
    case CarryUp(count) => y.(up := UpTo(Lines.Join(y.sent), |y.up| + count))
    case Serve(answer) => DoServe(codec, y, answer)
    case StartReply => DoStartReply(codec, y)
    case StartEvent(text) => DoStartEvent(codec, y, text)
    case Push(count) => y.(output := Write(y.output, IpcServing.Push(count)))
    case Finish => y.(output := Write(y.output, IpcServing.Finish))
    case CarryDown(count) => y.(down := UpTo(y.output.bytes, |y.down| + count))
    case Pump => DoPump(codec, y)
  }

  function Reached(codec: Codec, steps: seq<Step>): System {
    Fold((y: System, step: Step) => Next(codec, y, step), START, steps)
  }

  // ----- What every run keeps -----

  /** One of the first n calls has this id. */
  predicate Begun(n: nat, id: int) {
    exists m: nat | 0 < m <= n :: C.CallId(m) == id
  }

  /** Every call that began is either not sent or sent once. */
  ghost predicate IdsOk(y: System) {
    && (forall j, k | 0 <= j < k < |y.ids| :: y.ids[j] != y.ids[k])
    && (forall id | id in y.ids :: id !in y.ready)
    && (forall id :: id in y.ids || id in y.ready <==> Begun(y.begun, id))
  }

  /** The reply that the handler's outcome for line k makes. */
  function ReplyOf(codec: Codec, y: System, k: nat): Reply
    requires k < |y.answers| && k < |y.sent|
  {
    ReplyTo(Seen(codec, y.sent[k]), y.answers[k])
  }

  predicate SentOk(codec: Codec, y: System) {
    && y.client.nextId == C.CallId(y.begun) && y.begun < C.CALLS && |y.ids| == |y.sent|
    && (forall k | 0 <= k < |y.sent| :: Own(codec, y.sent[k], y.ids[k]))
    && (forall id | id in y.ready :: Own(codec, y.ready[id], id))
  }

  predicate UpOk(y: System) {
    y.up <= Lines.Join(y.sent) && |y.answers| <= |Served(y.up)| && |y.answers| <= |y.sent|
  }

  /** All messages whose writing has begun. */
  function Started(o: Output): seq<string> {
    o.done + if o.current.Some? then [o.current.value.0] else []
  }

  /** The replies among some messages. */
  function RepliesAmong(codec: Codec, texts: seq<string>): seq<Reply> {
    if texts == [] then [] else
      var n := |texts| - 1;
      var m := codec.decode(texts[n]);
      RepliesAmong(codec, texts[..n]) + if m.Response? then [m.reply] else []
  }

  /** The replies written so far and the pending one. */
  function Made(codec: Codec, y: System): seq<Reply> {
    RepliesAmong(codec, Started(y.output)) + if y.pending.Some? then [y.pending.value] else []
  }

  /** They are those of the requests handled, in order. */
  predicate RepliesOk(codec: Codec, y: System) {
    && |Made(codec, y)| == |y.answers| <= |y.sent|
    && forall k | 0 <= k < |y.answers| :: Made(codec, y)[k] == ReplyOf(codec, y, k)
  }

  predicate DownOk(y: System) {
    y.down <= y.output.bytes && y.read <= |Lines.Of(y.down).lines|
  }

  /** The replies that the client's pump has taken. */
  function Got(codec: Codec, y: System): seq<Reply>
    requires y.read <= |Started(y.output)|
  {
    RepliesAmong(codec, Started(y.output)[..y.read])
  }

  /** The call of line k waits, or has ended: timed out, or with the reply to its own request. */
  predicate CallOk(codec: Codec, y: System, got: nat, k: nat)
    requires k < |y.sent| == |y.ids|
  {
    var id := y.ids[k];
    && (id in y.client.waiters <==> id !in y.client.outcomes)
    && (k < got && Seen(codec, y.sent[k]).Fields? ==> id in y.client.outcomes)
    && (id in y.client.outcomes && y.client.outcomes[id].Answered? ==>
          && k < got && k < |y.answers| && Seen(codec, y.sent[k]).Fields?
          && y.client.outcomes[id].reply == ReplyOf(codec, y, k))
  }

  /** A call that is not sent waits. */
  predicate ReadyWait(y: System) {
    forall id | id in y.ready :: id in y.client.waiters && id !in y.client.outcomes
  }

  ghost predicate OnlyCalls(y: System) {
    forall id | id in y.client.waiters || id in y.client.outcomes :: id in y.ids || id in y.ready
  }

  ghost predicate ClientOk(codec: Codec, y: System) {
    && y.read <= |Started(y.output)| && |y.ids| == |y.sent|
    && (forall k | 0 <= k < |y.sent| :: CallOk(codec, y, |Got(codec, y)|, k))
    && ReadyWait(y) && OnlyCalls(y)
  }

  ghost predicate Inv(codec: Codec, y: System) {
    && SentOk(codec, y) && IdsOk(y) && UpOk(y) && OutputOk(y.output) && RepliesOk(codec, y) && DownOk(y)
    && ClientOk(codec, y)
  }

  // ----- Steps that leave most as it is -----

  lemma ClientOkKept(codec: Codec, y: System, z: System)
    requires ClientOk(codec, y)
    requires z.client == y.client && z.sent == y.sent && z.ids == y.ids && z.ready == y.ready && z.read == y.read
    requires y.answers <= z.answers && Started(y.output) <= Started(z.output)
    ensures ClientOk(codec, z)
  {
    hide Started, RepliesAmong;
    assert Started(z.output)[..z.read] == Started(y.output)[..y.read];
    forall k | 0 <= k < |z.sent| ensures CallOk(codec, z, |Got(codec, z)|, k) {
      assert CallOk(codec, y, |Got(codec, y)|, k);
    }
  }

  lemma RepliesOkKept(codec: Codec, y: System, z: System)
    requires RepliesOk(codec, y)
    requires z.answers == y.answers && z.pending == y.pending && Started(z.output) == Started(y.output)
    requires y.sent <= z.sent
    ensures RepliesOk(codec, z)
  {
    hide Started, RepliesAmong;
    assert Made(codec, z) == Made(codec, y);
    forall k | 0 <= k < |z.answers| ensures Made(codec, z)[k] == ReplyOf(codec, z, k) {
      assert ReplyOf(codec, z, k) == ReplyOf(codec, y, k);
    }
  }

  lemma DownOkKept(y: System, z: System)
    requires DownOk(y) && z.down == y.down && z.read == y.read && y.output.bytes <= z.output.bytes
    ensures DownOk(z)
  {
    hide Lines.Of;
  }

  lemma SentOkKept(codec: Codec, y: System, z: System)
    requires SentOk(codec, y) && IdsOk(y) && UpOk(y)
    requires z.client == y.client && z.sent == y.sent && z.up == y.up && z.answers == y.answers
    requires z.begun == y.begun && z.ready == y.ready && z.ids == y.ids
    ensures SentOk(codec, z) && IdsOk(z) && UpOk(z)
  {
    hide Own, Served, Lines.Join, C.CallId, Begun;
  }

  lemma {:induction false} RepliesPrefix(codec: Codec, texts: seq<string>, k: nat)
    requires k <= |texts|
    ensures RepliesAmong(codec, texts[..k]) <= RepliesAmong(codec, texts)
    decreases |texts|
  {
    if k == |texts| {
      assert texts[..k] == texts;
    } else {
      var n := |texts| - 1;
      RepliesPrefix(codec, texts[..n], k);
      assert texts[..n][..k] == texts[..k];
    }
  }

  lemma RepliesSnoc(codec: Codec, texts: seq<string>, text: string)
    ensures RepliesAmong(codec, texts + [text])
         == RepliesAmong(codec, texts) + if codec.decode(text).Response? then [codec.decode(text).reply] else []
  {
    assert (texts + [text])[..|texts|] == texts;
  }

  /** What the client has taken is the front of the replies of the requests handled. */
  lemma GotIsPrefix(codec: Codec, y: System)
    requires RepliesOk(codec, y) && y.read <= |Started(y.output)|
    ensures |Got(codec, y)| <= |y.answers|
    ensures forall k | 0 <= k < |Got(codec, y)| :: Got(codec, y)[k] == ReplyOf(codec, y, k)
  {
    RepliesPrefix(codec, Started(y.output), y.read);
    hide Started, RepliesAmong;
    var got, all := Got(codec, y), Made(codec, y);
    assert forall k | 0 <= k < |got| :: got[k] == all[k];
  }

  // ----- The client's steps -----

  /** A new call's id is new, and not the one that answers to unreadable requests carry. */
  lemma NewId(n: nat)
    requires n + 1 < C.CALLS
    ensures !Begun(n, C.CallId(n + 1))
    ensures forall id :: Begun(n + 1, id) <==> Begun(n, id) || id == C.CallId(n + 1)
  {
    forall m: nat | 0 < m <= n ensures C.CallId(m) != C.CallId(n + 1) { C.CallIdsDiffer(m, n + 1); }
    hide C.CallId;
    forall id ensures Begun(n + 1, id) <==> Begun(n, id) || id == C.CallId(n + 1) {
      if Begun(n, id) {
        var m: nat :| 0 < m <= n && C.CallId(m) == id;
        assert m <= n + 1;
      }
    }
  }

  lemma ZeroIsNoId(n: nat)
    requires n < C.CALLS
    ensures !Begun(n, 0)
  {
  }

  lemma CallKeepsIds(codec: Codec, y: System, body: string)
    requires SentOk(codec, y) && IdsOk(y)
    ensures SentOk(codec, DoCall(codec, y, body)) && IdsOk(DoCall(codec, y, body))
  {
    if DoCall(codec, y, body) != y {
      C.NextCallId(y.client, y.begun);
      NewId(y.begun);
      hide Own, C.CallId, Begun;
    }
  }

  lemma CallKeepsClient(codec: Codec, y: System, body: string)
    requires Inv(codec, y)
    ensures ClientOk(codec, DoCall(codec, y, body))
  {
    var z := DoCall(codec, y, body);
    if z != y {
      C.NextCallId(y.client, y.begun);
      NewId(y.begun);
      hide Served, RepliesAmong, Started, OutputOk, RepliesOk, C.CallId, Own, Lines.Of, Lines.Join, Begun,
        ReplyOf, Seen;
      assert Got(codec, z) == Got(codec, y);
      forall k | 0 <= k < |z.sent| ensures CallOk(codec, z, |Got(codec, z)|, k) {
        assert CallOk(codec, y, |Got(codec, y)|, k);
        assert y.ids[k] in y.ids;
      }
    }
  }

  lemma CallKeepsInv(codec: Codec, y: System, body: string)
    requires Inv(codec, y)
    ensures Inv(codec, DoCall(codec, y, body))
  {
    CallKeepsIds(codec, y, body);
    CallKeepsClient(codec, y, body);
    hide SentOk, IdsOk, ClientOk, OutputOk, Started, RepliesAmong, Lines.Of, Lines.Join, Served;
    var z := DoCall(codec, y, body);
    RepliesOkKept(codec, y, z);
    DownOkKept(y, z);
  }

  lemma SendKeepsSent(codec: Codec, y: System, id: int)
    requires SentOk(codec, y) && IdsOk(y) && UpOk(y)
    ensures SentOk(codec, DoSend(y, id)) && IdsOk(DoSend(y, id)) && UpOk(DoSend(y, id))
  {
    if id in y.ready {
      hide Own, C.CallId, Begun, Served, Lines.Join;
      Lines.JoinSnoc(y.sent, y.ready[id]);
    }
  }

  /** No line that was just sent has been answered. */
  lemma SendKeepsClient(codec: Codec, y: System, id: int)
    requires Inv(codec, y)
    ensures ClientOk(codec, DoSend(y, id))
  {
    if id in y.ready {
      var z := DoSend(y, id);
      GotIsPrefix(codec, y);
      hide Served, RepliesAmong, Started, OutputOk, RepliesOk, C.CallId, Own, Lines.Of, Lines.Join, Begun, Seen, IdsOk;
      assert Got(codec, z) == Got(codec, y);
      forall k | 0 <= k < |z.sent| ensures CallOk(codec, z, |Got(codec, z)|, k) {
        if k < |y.sent| { assert CallOk(codec, y, |Got(codec, y)|, k); }
      }
    }
  }

  lemma SendKeepsInv(codec: Codec, y: System, id: int)
    requires Inv(codec, y)
    ensures Inv(codec, DoSend(y, id))
  {
    SendKeepsSent(codec, y, id);
    SendKeepsClient(codec, y, id);
    hide SentOk, IdsOk, UpOk, ClientOk, OutputOk, Started, RepliesAmong, Lines.Of, Lines.Join, Served;
    var z := DoSend(y, id);
    RepliesOkKept(codec, y, z);
    DownOkKept(y, z);
  }

  lemma ExpireKeepsInv(codec: Codec, y: System, id: int)
    requires Inv(codec, y)
    ensures Inv(codec, DoExpire(y, id))
  {
    hide Served, RepliesAmong, Started, OutputOk, C.CallId, Own, Lines.Of, Lines.Join, Begun;
    var z := DoExpire(y, id);
    RepliesOkKept(codec, y, z);
    hide RepliesOk;
    forall k | 0 <= k < |z.sent| ensures CallOk(codec, z, |Got(codec, z)|, k) {
      assert CallOk(codec, y, |Got(codec, y)|, k);
    }
  }

  // ----- The request loop -----

  /** The lines served are those sent, in order and as the server cleans them. */
  lemma ServedIsSent(codec: Codec, y: System)
    requires SentOk(codec, y) && UpOk(y)
    ensures |Served(y.up)| <= |y.sent| && forall k | 0 <= k < |Served(y.up)| :: Served(y.up)[k] == Lines.Clean(y.sent[k])
    ensures y.up == Lines.Join(y.sent) ==> Served(y.up) == AcceptedLines(y.sent)
  {
    ServedOfSent(y.sent, y.up);
  }

  lemma CarryUpKeepsUp(codec: Codec, y: System, up: string)
    requires SentOk(codec, y) && UpOk(y) && y.up <= up <= Lines.Join(y.sent)
    ensures UpOk(y.(up := up))
  {
    hide Own, Lines.Of, Lines.Join, Served;
    ServedGrows(y.up, up);
  }

  lemma ServeKeepsReplies(codec: Codec, y: System, answer: (bool, string))
    requires SentOk(codec, y) && UpOk(y) && RepliesOk(codec, y)
    ensures UpOk(DoServe(codec, y, answer)) && RepliesOk(codec, DoServe(codec, y, answer))
  {
    var z := DoServe(codec, y, answer);
    if z != y {
      var n := |y.answers|;
      ServedIsSent(codec, y);
      hide Served, RepliesAmong, Started, C.CallId, Own, Lines.Of, Lines.Join;
      assert Served(y.up)[n] == Lines.Clean(y.sent[n]);
      assert z.pending == Some(ReplyOf(codec, z, n));
      assert Made(codec, z) == Made(codec, y) + [z.pending.value];
      forall k | 0 <= k < |z.answers| ensures Made(codec, z)[k] == ReplyOf(codec, z, k) {
        if k < n { assert Made(codec, z)[k] == Made(codec, y)[k] && ReplyOf(codec, z, k) == ReplyOf(codec, y, k); }
      }
    }
  }

  lemma ServeKeepsInv(codec: Codec, y: System, answer: (bool, string))
    requires Inv(codec, y)
    ensures Inv(codec, DoServe(codec, y, answer))
  {
    ServeKeepsReplies(codec, y, answer);
    ClientOkKept(codec, y, DoServe(codec, y, answer));
    hide UpOk, RepliesOk, ClientOk, OutputOk, Served, Lines.Of, Own;
  }

  // ----- Writing -----

  lemma StartReplyKeepsReplies(codec: Codec, y: System)
    requires Faithful(codec) && RepliesOk(codec, y)
    ensures RepliesOk(codec, DoStartReply(codec, y))
  {
    var z := DoStartReply(codec, y);
    if z != y {
      RepliesSnoc(codec, Started(y.output), codec.reply(y.pending.value));
      assert Started(z.output) == Started(y.output) + [codec.reply(y.pending.value)];
      hide RepliesAmong, Started;
      assert Made(codec, z) == Made(codec, y);
      forall k | 0 <= k < |z.answers| ensures Made(codec, z)[k] == ReplyOf(codec, z, k) {
        assert ReplyOf(codec, z, k) == ReplyOf(codec, y, k);
      }
    }
  }

  lemma StartEventKeepsReplies(codec: Codec, y: System, text: string)
    requires RepliesOk(codec, y)
    ensures RepliesOk(codec, DoStartEvent(codec, y, text))
  {
    var z := DoStartEvent(codec, y, text);
    if z != y {
      RepliesSnoc(codec, Started(y.output), text);
      assert Started(z.output) == Started(y.output) + [text];
      hide RepliesAmong, Started;
      assert RepliesAmong(codec, Started(y.output)) + [] == RepliesAmong(codec, Started(y.output));
      assert Made(codec, z) == Made(codec, y);
      forall k | 0 <= k < |z.answers| ensures Made(codec, z)[k] == ReplyOf(codec, z, k) {
        assert ReplyOf(codec, z, k) == ReplyOf(codec, y, k);
      }
    }
  }

  lemma StartKeepsInv(codec: Codec, y: System, z: System, text: string)
    requires Inv(codec, y) && y.output.current.None? && Lines.NewlineFree(text) && RepliesOk(codec, z)
    requires z == y.(output := Write(y.output, Begin(text)), pending := z.pending)
    ensures Inv(codec, z)
  {
    assert Started(z.output) == Started(y.output) + [text] && z.output.bytes == y.output.bytes;
    hide SentOk, IdsOk, UpOk, RepliesOk, ClientOk, DownOk, OutputOk, Started, Write;
    WriteKeepsOk(y.output, Begin(text));
    SentOkKept(codec, y, z);
    ClientOkKept(codec, y, z);
    DownOkKept(y, z);
  }

  lemma WritePartKeepsInv(codec: Codec, y: System, step: WriteStep)
    requires Inv(codec, y) && !step.Begin?
    ensures Inv(codec, y.(output := Write(y.output, step)))
  {
    hide SentOk, IdsOk, UpOk, RepliesOk, ClientOk, DownOk, OutputOk, Started, Write;
    var z := y.(output := Write(y.output, step));
    WriteKeepsOk(y.output, step);
    WriteOnlyAdds(y.output, step);
    SentOkKept(codec, y, z);
    RepliesOkKept(codec, y, z);
    ClientOkKept(codec, y, z);
    DownOkKept(y, z);
  }

  lemma WriteOnlyAdds(o: Output, step: WriteStep)
    requires !step.Begin?
    ensures Started(Write(o, step)) == Started(o) && o.bytes <= Write(o, step).bytes
  {
  }

  // ----- The client's pump -----

  /** The lines that the client can see are the first of the messages begun. */
  lemma SeenIsStarted(y: System)
    requires OutputOk(y.output) && DownOk(y)
    ensures Lines.Of(y.down).lines <= Lines.Of(y.output.bytes).lines <= Started(y.output)
  {
    Lines.OfPrefix(y.down, y.output.bytes);
    WholeLines(y.output);
    hide OutputOk, Lines.Of;
  }

  lemma CarryDownKeepsDown(y: System, down: string)
    requires DownOk(y) && y.down <= down <= y.output.bytes
    ensures DownOk(y.(down := down))
  {
    Lines.OfPrefix(y.down, down);
    hide Lines.Of;
  }

  /** One line taken: the reply to the call that comes next, or no reply. */
  lemma PumpTakes(codec: Codec, y: System)
    requires Inv(codec, y) && y.read < |Lines.Of(y.down).lines|
    ensures var z, m, g := DoPump(codec, y), codec.decode(Lines.Of(y.down).lines[y.read]), |Got(codec, y)|;
      && z.read <= |Started(z.output)| && z == y.(client := C.Received(y.client, m), read := y.read + 1)
      && |Got(codec, z)| == g + (if m.Response? then 1 else 0)
      && (m.Response? ==> g < |y.answers| && m.reply == ReplyOf(codec, y, g))
  {
    hide Started, RepliesAmong, OutputOk, SentOk, UpOk, Lines.Of;
    var z := DoPump(codec, y);
    SeenIsStarted(y);
    var text := Lines.Of(y.down).lines[y.read];
    assert text == Started(y.output)[y.read];
    assert Started(y.output)[..y.read + 1] == Started(y.output)[..y.read] + [text];
    RepliesSnoc(codec, Started(y.output)[..y.read], text);
    GotIsPrefix(codec, z);
  }

  lemma PumpKeepsInv(codec: Codec, y: System)
    requires Inv(codec, y)
    ensures Inv(codec, DoPump(codec, y))
  {
    var z := DoPump(codec, y);
    if y.read < |Lines.Of(y.down).lines| {
      PumpTakes(codec, y);
      RepliesOkKept(codec, y, z);
      PumpKeepsClient(codec, y);
      hide DoPump, Started, RepliesAmong, OutputOk, RepliesOk, ClientOk, Served, C.CallId, Own, Lines.Of, Lines.Join,
        Begun;
    }
  }

  lemma PumpKeepsClient(codec: Codec, y: System)
    requires Inv(codec, y) && y.read < |Lines.Of(y.down).lines|
    ensures ClientOk(codec, DoPump(codec, y))
  {
    var z, g, m := DoPump(codec, y), |Got(codec, y)|, codec.decode(Lines.Of(y.down).lines[y.read]);
    PumpTakes(codec, y);
    ZeroIsNoId(y.begun);
    hide DoPump, Started, RepliesAmong, OutputOk, RepliesOk, UpOk, DownOk, Served, C.CallId, Own, Lines.Of, Lines.Join,
      Begun;
    if m.Response? { ReplyIsForTheNext(codec, y, g); }
    hide SentOk, Got, Seen, ReplyOf;
    forall k | 0 <= k < |z.sent| ensures CallOk(codec, z, |Got(codec, z)|, k) {
      assert CallOk(codec, y, g, k);
      assert y.ids[k] in y.ids;
    }
  }

  /** The id of the reply to line g: that of its call, or the one that no call has. */
  lemma ReplyIsForTheNext(codec: Codec, y: System, g: nat)
    requires SentOk(codec, y) && g < |y.answers| && g < |y.sent|
    ensures var id := ReplyOf(codec, y, g).id;
      if Seen(codec, y.sent[g]).Fields? then id == y.ids[g] && id in y.ids else id == 0
  {
    assert Own(codec, y.sent[g], y.ids[g]);
  }

  // ----- Theorems over all runs -----

  lemma CarryKeepsInv(codec: Codec, y: System, step: Step)
    requires Inv(codec, y) && (step.CarryUp? || step.CarryDown?)
    ensures Inv(codec, Next(codec, y, step))
  {
    var z := Next(codec, y, step);
    hide RepliesOk, ClientOk, OutputOk, Started, Served, Lines.Of, Own, C.CallId, Begun;
    if step.CarryUp? {
      CarryUpKeepsUp(codec, y, z.up);
    } else {
      CarryDownKeepsDown(y, z.down);
    }
    ClientOkKept(codec, y, z);
    RepliesOkKept(codec, y, z);
  }

  lemma StepKeepsInv(codec: Codec, y: System, step: Step)
    requires Faithful(codec) && Inv(codec, y)
    ensures Inv(codec, Next(codec, y, step))
  {
    hide DoCall, DoSend, DoExpire, DoServe, DoPump, SentOk, IdsOk, UpOk, OutputOk, DownOk, ClientOk, RepliesOk, Write;
    match step
    case Call(body) => CallKeepsInv(codec, y, body);
    case Send(id) => SendKeepsInv(codec, y, id);
    case Expire(id) => ExpireKeepsInv(codec, y, id);
    case CarryUp(_) => CarryKeepsInv(codec, y, step);
    case Serve(answer) => ServeKeepsInv(codec, y, answer);
    case StartReply =>
      StartReplyKeepsReplies(codec, y);
      if y.pending.Some? && y.output.current.None? {
        StartKeepsInv(codec, y, DoStartReply(codec, y), codec.reply(y.pending.value));
      }
    case StartEvent(text) =>
      StartEventKeepsReplies(codec, y, text);
      if DoStartEvent(codec, y, text) != y { StartKeepsInv(codec, y, DoStartEvent(codec, y, text), text); }
    case Push(count) => WritePartKeepsInv(codec, y, IpcServing.Push(count));
    case Finish => WritePartKeepsInv(codec, y, IpcServing.Finish);
    case CarryDown(_) => CarryKeepsInv(codec, y, step);
    case Pump => PumpKeepsInv(codec, y);
  }

  lemma {:induction false} ReachedInv(codec: Codec, steps: seq<Step>)
    requires Faithful(codec)
    ensures Inv(codec, Reached(codec, steps))
  {
    if steps == [] {
    } else {
      var n := |steps| - 1;
      ReachedInv(codec, steps[..n]);
      assert steps == steps[..n] + [steps[n]];
      FoldSnoc((y: System, step: Step) => Next(codec, y, step), START, steps[..n], steps[n]);
      hide Inv, Next, Fold;
      StepKeepsInv(codec, Reached(codec, steps[..n]), steps[n]);
    }
  }

  /** The request loop has ended at a line that it cannot handle. */
  predicate LoopEnded(codec: Codec, y: System) {
    |y.answers| < |Served(y.up)| && codec.parse(Served(y.up)[|y.answers|]).Escapes?
  }

  /** Everything sent has arrived, been answered as far as the request loop goes, and been read. */
  predicate Quiet(codec: Codec, y: System) {
    && y.up == Lines.Join(y.sent) && (|y.answers| == |Served(y.up)| || LoopEnded(codec, y)) && y.pending.None?
    && y.output.current.None? && y.down == y.output.bytes && y.read == |Lines.Of(y.down).lines|
  }

  /** The server gets to line k: it refuses neither this line nor one before it, and
      none of them makes an exception escape. */
  predicate Handled(codec: Codec, sent: seq<string>, k: nat)
    requires k < |sent|
  {
    forall m | 0 <= m <= k :: Accepted(Lines.Clean(sent[m])) && !Seen(codec, sent[m]).Escapes?
  }

  /** In every state of every run, however calls, expiries, answers and events
      interleave, in whatever order calls in progress write their lines, however the
      bytes are cut up under way, and wherever a connection stops: each call that was
      sent either waits, or timed out, or was completed with the reply that the
      handler's outcome for its own line made. And when all is quiet, each call whose
      line the server got to and took for a request has ended. */
  lemma CallsEndToEnd(codec: Codec, steps: seq<Step>, k: nat)
    requires Faithful(codec) && k < |Reached(codec, steps).sent|
    ensures |Reached(codec, steps).ids| == |Reached(codec, steps).sent|
    ensures var y, id := Reached(codec, steps), Reached(codec, steps).ids[k];
      && Own(codec, y.sent[k], id)
      && (id in y.client.waiters <==> id !in y.client.outcomes)
      && (id in y.client.outcomes && y.client.outcomes[id].Answered? ==>
            && k < |y.answers| && Seen(codec, y.sent[k]).Fields?
            && Seen(codec, y.sent[k]).request.id == id && y.client.outcomes[id].reply.id == id
            && y.client.outcomes[id].reply.ok == y.answers[k].0 && y.client.outcomes[id].reply.body == y.answers[k].1)
      && (Quiet(codec, y) && Handled(codec, y.sent, k) && Seen(codec, y.sent[k]).Fields? ==> id in y.client.outcomes)
  {
    var y := Reached(codec, steps);
    ReachedInv(codec, steps);
    if Quiet(codec, y) && Handled(codec, y.sent, k) { QuietGot(codec, y, k); }
    hide Reached, Quiet, Handled, RepliesAmong, Started, OutputOk, UpOk, RepliesOk, Seen, IdsOk;
    assert CallOk(codec, y, |Got(codec, y)|, k);
  }

  /** Then the client has taken the reply to call k. */
  lemma QuietGot(codec: Codec, y: System, k: nat)
    requires Inv(codec, y) && Quiet(codec, y) && k < |y.sent| && Handled(codec, y.sent, k)
    ensures k < |Got(codec, y)|
  {
    hide Served, AcceptedLines, RepliesAmong, OutputOk, ClientOk, Lines.Of, Lines.Join, Lines.Clean;
    ServedIsSent(codec, y);
    AcceptedUpTo(y.sent, k);
    WholeLines(y.output);
    assert Started(y.output)[..y.read] == Started(y.output);
  }

  /** In every run the calls that began are those that were sent, each once, and those
      that are not sent; the latter wait; and nothing else is in the table. */
  lemma EveryCallIsKept(codec: Codec, steps: seq<Step>)
    requires Faithful(codec)
    ensures var y := Reached(codec, steps); IdsOk(y) && ReadyWait(y) && OnlyCalls(y)
  {
    ReachedInv(codec, steps);
  }

  lemma StaysReady(codec: Codec, y: System, step: Step, id: int)
    requires id in y.ready && step != Send(id)
    ensures id in Next(codec, y, step).ready
  {
    hide Own, Served, Lines.Of, Lines.Join, Write, UpTo, C.Received, C.Expired, ReplyTo;
  }

  /** A call whose line is not sent, as when writing it throws, stays in the table for
      good: no reply and no expiry ever ends it. */
  lemma {:induction false} UnsentCallStays(codec: Codec, steps: seq<Step>, more: seq<Step>, id: int)
    requires Faithful(codec) && id in Reached(codec, steps).ready && Send(id) !in more
    ensures var z := Reached(codec, steps + more).client; id in z.waiters && id !in z.outcomes
    ensures id in Reached(codec, steps + more).ready
  {
    if more == [] {
      assert steps + more == steps;
    } else {
      var n := |more| - 1;
      var front := steps + more[..n];
      assert steps + more == front + [more[n]];
      FoldSnoc((y: System, step: Step) => Next(codec, y, step), START, front, more[n]);
      hide Fold, Faithful, Next;
      UnsentCallStays(codec, steps, more[..n], id);
      StaysReady(codec, Reached(codec, front), more[n], id);
    }
    hide *;
    EveryCallIsKept(codec, steps + more);
    assert ReadyWait(Reached(codec, steps + more));
  }

  /** An outcome stays: no call is completed twice, and one that timed out stays so
      when its reply comes late. A call times out only when it gives up itself. */
  lemma OutcomesStay(codec: Codec, steps: seq<Step>, step: Step, id: int)
    requires Faithful(codec)
    ensures var y, z := Reached(codec, steps), Next(codec, Reached(codec, steps), step);
      && (id in y.client.outcomes ==> id in z.client.outcomes && z.client.outcomes[id] == y.client.outcomes[id])
      && (id !in y.client.outcomes && id in z.client.outcomes && z.client.outcomes[id].TimedOut? ==> step == Expire(id))
  {
    hide Reached, Inv, DoCall, Write, Served, Lines.Join, UpTo;
    var y := Reached(codec, steps);
    ReachedInv(codec, steps);
    if step.Call? { CallKeepsOutcomes(codec, y, step.body, id); }
  }

  lemma CallKeepsOutcomes(codec: Codec, y: System, body: string, id: int)
    requires Inv(codec, y)
    ensures var z := DoCall(codec, y, body);
      id in z.client.outcomes <==> id in y.client.outcomes
    ensures id in y.client.outcomes ==> DoCall(codec, y, body).client.outcomes[id] == y.client.outcomes[id]
  {
    if DoCall(codec, y, body) != y {
      C.NextCallId(y.client, y.begun);
      NewId(y.begun);
      hide Served, OutputOk, UpOk, RepliesOk, DownOk, Own, Begun, C.CallId;
    }
  }

  // ----- From everywhere to quiet -----

  function Run(codec: Codec, y: System, more: seq<Step>): System {
    Fold((y: System, step: Step) => Next(codec, y, step), y, more)
  }

  lemma RunOne(codec: Codec, y: System, step: Step)
    ensures Run(codec, y, [step]) == Next(codec, y, step)
  {
    hide Next;
    assert [] + [step] == [step];
    FoldSnoc((y: System, step: Step) => Next(codec, y, step), y, [], step);
  }

  /** No further call, none sent, and none that gives up. */
  predicate Passive(more: seq<Step>) {
    forall step | step in more :: !step.Call? && !step.Send? && !step.Expire?
  }

  lemma RunConcat(codec: Codec, y: System, a: seq<Step>, b: seq<Step>)
    ensures Run(codec, y, a + b) == Run(codec, Run(codec, y, a), b)
  {
    hide Next;
    FoldConcat((y: System, step: Step) => Next(codec, y, step), y, a, b);
  }

  /** The message under way can be written to its end. */
  lemma Drain(codec: Codec, y: System) returns (z: System, more: seq<Step>)
    requires OutputOk(y.output)
    ensures Passive(more) && z == Run(codec, y, more) && z == y.(output := z.output) && z.output.current.None?
  {
    if y.output.current.None? {
      z, more := y, [];
    } else {
      var push := Step.Push(|y.output.current.value.0| + 1);
      var half := Next(codec, y, push);
      z, more := Next(codec, half, Step.Finish), [push] + [Step.Finish];
      RunOne(codec, y, push);
      RunOne(codec, half, Step.Finish);
      RunConcat(codec, y, [push], [Step.Finish]);
      hide Run, Lines.Join;
    }
  }

  /** And so can the pending reply. */
  lemma Flush(codec: Codec, y: System) returns (z: System, more: seq<Step>)
    requires Faithful(codec) && Inv(codec, y)
    ensures Passive(more) && z == Run(codec, y, more) && z == y.(output := z.output, pending := None)
    ensures z.output.current.None? && Inv(codec, z)
  {
    assert OutputOk(y.output);
    hide Run, Next, Inv, OutputOk, Faithful;
    var free, first := Drain(codec, y);
    RunKeepsInv(codec, y, first);
    if y.pending.None? {
      z, more := free, first;
    } else {
      var rest;
      z, rest := FlushReply(codec, free);
      more := first + rest;
      RunConcat(codec, y, first, rest);
    }
  }

  lemma FlushReply(codec: Codec, y: System) returns (z: System, more: seq<Step>)
    requires Faithful(codec) && Inv(codec, y) && y.pending.Some? && y.output.current.None?
    ensures Passive(more) && z == Run(codec, y, more) && z == y.(output := z.output, pending := None)
    ensures z.output.current.None? && Inv(codec, z)
  {
    var started := Next(codec, y, StartReply);
    assert started == y.(output := started.output, pending := None);
    RunOne(codec, y, StartReply);
    RunKeepsInv(codec, y, [StartReply]);
    assert OutputOk(started.output);
    hide Run, Next, Inv, OutputOk, Faithful;
    var rest;
    z, rest := Drain(codec, started);
    more := [StartReply] + rest;
    RunConcat(codec, y, [StartReply], rest);
    RunKeepsInv(codec, started, rest);
  }

  lemma {:induction false} RunKeepsInv(codec: Codec, y: System, more: seq<Step>)
    requires Faithful(codec) && Inv(codec, y)
    ensures Inv(codec, Run(codec, y, more))
  {
    if more != [] {
      var n := |more| - 1;
      RunKeepsInv(codec, y, more[..n]);
      assert more == more[..n] + [more[n]];
      FoldSnoc((y: System, step: Step) => Next(codec, y, step), y, more[..n], more[n]);
      hide Inv, Next, Fold;
      StepKeepsInv(codec, Run(codec, y, more[..n]), more[n]);
    }
  }

  /** The request loop can handle all lines that have arrived, as far as it goes. */
  lemma {:induction false} ServeAll(codec: Codec, y: System, answer: (bool, string)) returns (z: System, more: seq<Step>)
    requires Faithful(codec) && Inv(codec, y) && y.pending.None? && y.output.current.None?
    ensures Passive(more) && z == Run(codec, y, more) && Inv(codec, z)
    ensures z == y.(answers := z.answers, output := z.output) && z.output.current.None?
    ensures |z.answers| == |Served(z.up)| || LoopEnded(codec, z)
    decreases |Served(y.up)| - |y.answers|
  {
    hide Served;
    if |y.answers| == |Served(y.up)| || LoopEnded(codec, y) {
      z, more := y, [];
    } else {
      var served := Next(codec, y, Serve(answer));
      assert served == y.(answers := y.answers + [answer], pending := served.pending);
      RunOne(codec, y, Serve(answer));
      RunKeepsInv(codec, y, [Serve(answer)]);
      hide Run, Next, Inv;
      var flushed, first := Flush(codec, served);
      var rest;
      ServedEnough(codec, flushed);
      z, rest := ServeAll(codec, flushed, answer);
      more := [Serve(answer)] + first + rest;
      RunConcat(codec, y, [Serve(answer)], first);
      RunConcat(codec, y, [Serve(answer)] + first, rest);
    }
  }

  lemma ServedEnough(codec: Codec, y: System)
    requires Inv(codec, y)
    ensures |y.answers| <= |Served(y.up)|
  {
  }

  /** The pump can take all lines that have arrived. */
  lemma {:induction false} PumpAll(codec: Codec, y: System) returns (z: System, more: seq<Step>)
    requires y.read <= |Lines.Of(y.down).lines|
    ensures Passive(more) && z == Run(codec, y, more)
    ensures z == y.(client := z.client, read := |Lines.Of(y.down).lines|)
    decreases |Lines.Of(y.down).lines| - y.read
  {
    hide Lines.Of;
    if y.read == |Lines.Of(y.down).lines| {
      z, more := y, [];
    } else {
      var next := Next(codec, y, Pump);
      assert next == y.(client := next.client, read := y.read + 1);
      RunOne(codec, y, Pump);
      hide Run, Next;
      var rest;
      z, rest := PumpAll(codec, next);
      more := [Pump] + rest;
      RunConcat(codec, y, [Pump], rest);
    }
  }

  lemma Carried(codec: Codec, y: System)
    requires Inv(codec, y)
    ensures Next(codec, y, CarryUp(|Lines.Join(y.sent)|)) == y.(up := Lines.Join(y.sent))
    ensures Next(codec, y, CarryDown(|y.output.bytes|)) == y.(down := y.output.bytes)
  {
    hide Lines.Join, SentOk, RepliesOk, ClientOk, OutputOk, Served;
  }

  /** What was sent can arrive and be served. */
  lemma ServeArrived(codec: Codec, y: System, answer: (bool, string)) returns (z: System, more: seq<Step>)
    requires Faithful(codec) && Inv(codec, y) && y.pending.None? && y.output.current.None?
    ensures Passive(more) && z == Run(codec, y, more) && Inv(codec, z)
    ensures z == y.(up := Lines.Join(y.sent), answers := z.answers, output := z.output) && z.output.current.None?
    ensures |z.answers| == |Served(z.up)| || LoopEnded(codec, z)
  {
    hide Run, Next, Inv, Served, Lines.Join, Faithful;
    var carry := [CarryUp(|Lines.Join(y.sent)|)];
    Carried(codec, y);
    RunOne(codec, y, carry[0]);
    RunKeepsInv(codec, y, carry);
    var rest;
    z, rest := ServeAll(codec, Run(codec, y, carry), answer);
    more := carry + rest;
    RunConcat(codec, y, carry, rest);
  }

  /** What was written can arrive and be read. */
  lemma TakeArrived(codec: Codec, y: System) returns (z: System, more: seq<Step>)
    requires Faithful(codec) && Inv(codec, y)
    ensures Passive(more) && z == Run(codec, y, more)
    ensures z == y.(down := y.output.bytes, client := z.client, read := |Lines.Of(y.output.bytes).lines|)
  {
    hide Run, Next, Inv, Lines.Of, Faithful;
    var carry := [CarryDown(|y.output.bytes|)];
    Carried(codec, y);
    RunOne(codec, y, carry[0]);
    RunKeepsInv(codec, y, carry);
    var rest;
    ReadEnough(codec, Run(codec, y, carry));
    z, rest := PumpAll(codec, Run(codec, y, carry));
    more := carry + rest;
    RunConcat(codec, y, carry, rest);
  }

  lemma ReadEnough(codec: Codec, y: System)
    requires Inv(codec, y)
    ensures y.read <= |Lines.Of(y.down).lines|
  {
  }

  /** Nothing gets stuck: from every reachable state, without a further call or
      expiry, all can become quiet. */
  lemma QuietIsWithinReach(codec: Codec, steps: seq<Step>, answer: (bool, string)) returns (more: seq<Step>)
    requires Faithful(codec)
    ensures Passive(more) && Quiet(codec, Reached(codec, steps + more))
    ensures Reached(codec, steps + more).sent == Reached(codec, steps).sent
    ensures Reached(codec, steps + more).ids == Reached(codec, steps).ids
  {
    var y := Reached(codec, steps);
    ReachedInv(codec, steps);
    hide Run, Reached, Inv, Lines.Join, Lines.Of, Served, Faithful;
    var flushed, a := Flush(codec, y);
    var served, b := ServeArrived(codec, flushed, answer);
    var z, c := TakeArrived(codec, served);
    more := a + b + c;
    RunConcat(codec, y, a, b);
    RunConcat(codec, y, a + b, c);
    ReachedConcat(codec, steps, more);
  }

  lemma ReachedConcat(codec: Codec, steps: seq<Step>, more: seq<Step>)
    ensures Reached(codec, steps + more) == Run(codec, Reached(codec, steps), more)
  {
    hide Next;
    FoldConcat((y: System, step: Step) => Next(codec, y, step), START, steps, more);
  }

  lemma {:induction false} PassiveTimesNoneOut(codec: Codec, steps: seq<Step>, more: seq<Step>, id: int)
    requires Faithful(codec) && Passive(more) && id !in Reached(codec, steps).client.outcomes
    ensures id in Reached(codec, steps + more).client.outcomes ==>
      Reached(codec, steps + more).client.outcomes[id].Answered?
  {
    if more == [] {
      assert steps + more == steps;
    } else {
      var n := |more| - 1;
      var front := steps + more[..n];
      assert steps + more == front + [more[n]];
      FoldSnoc((y: System, step: Step) => Next(codec, y, step), START, front, more[n]);
      hide Next, Fold, Faithful;
      PassiveTimesNoneOut(codec, steps, more[..n], id);
      OutcomesStay(codec, front, more[n], id);
    }
  }

  /** A call that waits can still be answered, from every reachable state and without
      a further call or expiry, if the server gets to its line and takes it for a request. */
  lemma WaitingCallCanBeAnswered(codec: Codec, steps: seq<Step>, k: nat, answer: (bool, string))
    returns (more: seq<Step>)
    requires Faithful(codec) && k < |Reached(codec, steps).sent| == |Reached(codec, steps).ids|
    requires Reached(codec, steps).ids[k] in Reached(codec, steps).client.waiters
    requires Handled(codec, Reached(codec, steps).sent, k) && Seen(codec, Reached(codec, steps).sent[k]).Fields?
    ensures Passive(more)
    ensures var id, z := Reached(codec, steps).ids[k], Reached(codec, steps + more).client;
      id in z.outcomes && z.outcomes[id].Answered?
  {
    hide Reached, Handled, Quiet, Faithful, Seen, Own;
    CallsEndToEnd(codec, steps, k);
    more := QuietIsWithinReach(codec, steps, answer);
    CallsEndToEnd(codec, steps + more, k);
    PassiveTimesNoneOut(codec, steps, more, Reached(codec, steps).ids[k]);
  }
}
