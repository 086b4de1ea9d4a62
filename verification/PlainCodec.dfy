/**
 A codec that meets what is assumed of one: it stands in for JSON, and shows that
 the results about both ends of the control pipe are about something.
 */
module PlainCodec {
  import opened Wrappers
  import opened IpcServing
  import opened IpcSystem
  import C = IpcCalls
  import Lines

  // ----- Texts on one line -----

  function EscapedChar(c: char): string {
    if c == '\n' then "\\n" else if c == '\r' then "\\r" else if c == '\\' then "\\\\" else [c]
  }

  function Escape(s: string): string {
    if s == "" then "" else EscapedChar(s[0]) + Escape(s[1..])
  }

  function Unescape(s: string): string {
    if s == "" then ""
    else if s[0] == '\\' && |s| > 1 then
      [if s[1] == 'n' then '\n' else if s[1] == 'r' then '\r' else s[1]] + Unescape(s[2..])
    else [s[0]] + Unescape(s[1..])
  }

  predicate OneLine(s: string) {
    '\n' !in s && '\r' !in s
  }

  lemma {:induction false} EscapeRoundTrip(s: string)
    ensures Unescape(Escape(s)) == s && OneLine(Escape(s))
  {
    if s != "" {
      EscapeRoundTrip(s[1..]);
      var e, t := EscapedChar(s[0]), Escape(s[1..]);
      assert s == [s[0]] + s[1..];
      if |e| == 2 {
        assert (e + t)[2..] == t && (e + t)[0] == '\\';
      } else {
        assert (e + t)[1..] == t;
      }
    }
  }

  // ----- Numbers -----

  function Numeral(n: int): string
    decreases if n < 0 then -n else n
  {
    if n == 0 then ";" else if n > 0 then "+" + Numeral(n - 1) else "-" + Numeral(n + 1)
  }

  /** The number at the front of a text, and what follows it. */
  function ReadNumeral(s: string): (int, string) {
    if s == "" then (0, "")
    else if s[0] == '+' then var (n, rest) := ReadNumeral(s[1..]); (n + 1, rest)
    else if s[0] == '-' then var (n, rest) := ReadNumeral(s[1..]); (n - 1, rest)
    else (0, s[1..])
  }

  lemma {:induction false} NumeralRoundTrip(n: int, t: string)
    ensures ReadNumeral(Numeral(n) + t) == (n, t) && OneLine(Numeral(n)) && Numeral(n) != ""
    decreases if n < 0 then -n else n
  {
    if n == 0 {
      assert (";" + t)[1..] == t;
    } else {
      var m := if n > 0 then n - 1 else n + 1;
      NumeralRoundTrip(m, t);
      assert (Numeral(n) + t)[1..] == Numeral(m) + t;
    }
  }

  // ----- Requests and replies -----

  function PrintRequest(q: Request): string {
    Numeral(q.id) + Escape(q.body)
  }

  function ReadRequest(line: string): Parsed {
    var (id, rest) := ReadNumeral(line);
    Fields(Request(id, Unescape(rest)))
  }

  function PrintReply(r: Reply): string {
    Numeral(r.id) + ((if r.ok then "t" else "f") + Escape(r.body))
  }

  function ReadMessage(line: string): C.Message {
    var (id, rest) := ReadNumeral(line);
    if rest == "" then C.Unreadable else C.Response(Reply(id, rest[0] == 't', Unescape(rest[1..])))
  }

  const PLAIN := Codec(PrintRequest, ReadRequest, PrintReply, ReadMessage)

  lemma ReplyComesBack(r: Reply)
    ensures Lines.NewlineFree(PrintReply(r)) && ReadMessage(PrintReply(r)) == C.Response(r)
  {
    var flag := if r.ok then "t" else "f";
    NumeralRoundTrip(r.id, flag + Escape(r.body));
    EscapeRoundTrip(r.body);
    assert (flag + Escape(r.body))[1..] == Escape(r.body);
    hide Numeral, Escape, Unescape, ReadNumeral;
  }

  lemma PlainIsFaithful()
    ensures Faithful(PLAIN)
  {
    forall r ensures Lines.NewlineFree(PLAIN.reply(r)) && PLAIN.decode(PLAIN.reply(r)) == C.Response(r) {
      ReplyComesBack(r);
    }
  }

  /** Every call can be made, and the server takes its line for the request it is. */
  lemma CallIsMade(y: System, body: string)
    requires SentOk(PLAIN, y) && y.begun + 1 < C.CALLS
    ensures var z, id := DoCall(PLAIN, y, body), C.CallId(y.begun + 1);
      id in z.ready && id in z.client.waiters && Seen(PLAIN, z.ready[id]) == Fields(Request(id, body))
  {
    var request := Request(C.Called(y.client).nextId, body);
    C.NextCallId(y.client, y.begun);
    NumeralRoundTrip(request.id, Escape(body));
    EscapeRoundTrip(body);
    hide Numeral, Escape, Unescape, ReadNumeral, C.CallId, Lines.Clean;
    CleanOneLine(PrintRequest(request));
  }

  lemma {:induction false} CleanOneLine(s: string)
    requires OneLine(s)
    ensures Lines.Clean(s) == s
  {
    if s != "" {
      CleanOneLine(s[1..]);
      assert s == [s[0]] + s[1..];
    }
  }

  /** A client's first call. */
  function FirstCall(body: string): seq<Step> {
    [Call(body)] + [Send(1)]
  }

  /** A whole call: a client's first request of at most 256 KiB can be answered. */
  lemma FirstCallCanBeAnswered(body: string, answer: (bool, string)) returns (more: seq<Step>)
    requires |PrintRequest(Request(1, body))| <= LIMIT
    ensures Passive(more) && 1 in Reached(PLAIN, FirstCall(body) + more).client.outcomes
    ensures Reached(PLAIN, FirstCall(body) + more).client.outcomes[1].Answered?
  {
    PlainIsFaithful();
    FirstCallIsSent(body);
    hide Faithful, Reached, PrintRequest, FirstCall;
    more := WaitingCallCanBeAnswered(PLAIN, FirstCall(body), 0, answer);
  }

  lemma FirstCallIsSent(body: string)
    requires |PrintRequest(Request(1, body))| <= LIMIT
    ensures var y := Reached(PLAIN, FirstCall(body));
      && |y.sent| == 1 && y.ids == [1] && 1 in y.client.waiters
      && Handled(PLAIN, y.sent, 0) && Seen(PLAIN, y.sent[0]).Fields?
  {
    CallIsMade(START, body);
    RunOne(PLAIN, START, Call(body));
    RunOne(PLAIN, Next(PLAIN, START, Call(body)), Send(1));
    RunConcat(PLAIN, START, [Call(body)], [Send(1)]);
    NumeralRoundTrip(1, Escape(body));
    EscapeRoundTrip(body);
    CleanOneLine(PrintRequest(Request(1, body)));
    hide Numeral, Escape, Unescape, ReadNumeral, Lines.Clean;
  }
}
