/**
 One connection on the control pipe, server side: reading requests line by line
 from whatever chunks arrive, answering each, and writing whole messages while
 other threads write events.
 */
module IpcServing {
  import opened Wrappers
  import opened Folds
  import Lines

  const LIMIT: nat := 256 * 1024

  // ----- Reading lines -----

  /** The next line of the remaining bytes, and the bytes left after it: carriage
      returns are dropped, and an end of input or an overlong line reads as "". */
  function Take(s: string, line: string): (r: (string, string))
    ensures |r.1| <= |s| && (s != "" ==> |r.1| < |s|)
  {
    if s == "" then ("", "")
    else if s[0] == '\n' then (line, s[1..])
    else if s[0] == '\r' then Take(s[1..], line)
    else if |line| + 1 > LIMIT then ("", s[1..])
    else Take(s[1..], line + [s[0]])
  }

  /** The lines read until the first that is empty. */
  function Served(s: string): seq<string>
    decreases |s|
  {
    if s == "" then [] else
      var (line, rest) := Take(s, "");
      if line == "" then [] else [line] + Served(rest)
  }

  class LineReader {
    var chunks: seq<string>  // what the coming reads will deliver
    var buf: string
    var pos: nat

    ghost predicate Valid()
      reads this
    {
      pos <= |buf|
    }

    /** All bytes not yet looked at. */
    ghost function Rest(): string
      reads this
      requires Valid()
    {
      buf[pos..] + Lines.Delivered(chunks)
    }

    constructor (chunks: seq<string>)
      ensures Valid() && Rest() == Lines.Delivered(chunks)
    {
      this.chunks, buf, pos := chunks, "", 0;
    }

    method Next() returns (line: string)
      requires Valid()
      modifies this
      ensures Valid() && (line, Rest()) == Take(old(Rest()), "")
    {
      line := "";
      while true
        invariant Valid() && Take(Rest(), line) == Take(old(Rest()), "")
        decreases |chunks|, |buf| - pos
      {
        ghost var r := Rest();
        if pos >= |buf| {
          if chunks == [] || chunks[0] == "" { return ""; }
          buf, chunks, pos := chunks[0], chunks[1..], 0;
          assert Rest() == r;
        }
        var c := buf[pos];
        pos := pos + 1;
        assert r == [c] + Rest();
        if c == '\n' { return; }
        if c != '\r' {
          line := line + [c];
          if |line| > LIMIT { return ""; }
        }
      }
    }
  }

  // ----- Which lines those are -----

  predicate Accepted(line: string) {
    line != "" && |line| <= LIMIT
  }

  /** Lines without their carriage returns, up to the first blank or overlong one. */
  function AcceptedLines(lines: seq<string>): seq<string> {
    if lines == [] || !Accepted(Lines.Clean(lines[0])) then [] else [Lines.Clean(lines[0])] + AcceptedLines(lines[1..])
  }

  lemma {:induction false} TakeLine(l: string, r: string, line: string)
    requires Lines.NewlineFree(l) && |line| <= LIMIT
    ensures var t := Take(l + "\n" + r, line);
      if |line + Lines.Clean(l)| <= LIMIT then t == (line + Lines.Clean(l), r) else t.0 == ""
  {
    var s := l + "\n" + r;
    if l == "" {
      assert s[1..] == r;
      assert line + "" == line;
    } else {
      assert s[1..] == l[1..] + "\n" + r;
      if l[0] == '\r' {
        TakeLine(l[1..], r, line);
      } else if |line| < LIMIT {
        TakeLine(l[1..], r, line + [l[0]]);
        assert line + [l[0]] + Lines.Clean(l[1..]) == line + Lines.Clean(l);
      }
    }
  }

  lemma {:induction false} TakeTail(s: string, line: string)
    requires Lines.NewlineFree(s)
    ensures Take(s, line).0 == ""
  {
    if s != "" {
      if s[0] == '\r' { TakeTail(s[1..], line); } else { TakeTail(s[1..], line + [s[0]]); }
    }
  }

  /** The server reads exactly the newline-terminated lines of the whole input, up
      to the first that is blank or over 256 KiB: how the input is cut into
      chunks makes no difference, and an unfinished line is never served. */
  lemma {:induction false} ServedExactly(s: string)
    ensures Served(s) == AcceptedLines(Lines.Of(s).lines)
    decreases |s|
  {
    var i := Lines.Find(s, '\n');
    if i == |s| {
      assert s[..i] == s;
      Lines.OfNewlineFree(s);
      TakeTail(s, "");
    } else {
      var l, r := s[..i], s[i + 1..];
      assert s == l + "\n" + r;
      Lines.OfFirstLine(l, r);
      TakeLine(l, r, "");
      assert "" + Lines.Clean(l) == Lines.Clean(l);
      ServedExactly(r);
      assert ([l] + Lines.Of(r).lines)[1..] == Lines.Of(r).lines;
    }
  }

  lemma {:induction false} AcceptedPrefix(a: seq<string>, b: seq<string>)
    requires a <= b
    ensures AcceptedLines(a) <= AcceptedLines(b)
    ensures |AcceptedLines(a)| <= |a|
    ensures forall k | 0 <= k < |AcceptedLines(a)| ::
      AcceptedLines(a)[k] == Lines.Clean(a[k]) && Accepted(Lines.Clean(a[k]))
  {
    hide Lines.Clean, Accepted;
    if a != [] {
      assert a[0] == b[0] && a[1..] <= b[1..];
      AcceptedPrefix(a[1..], b[1..]);
      if AcceptedLines(a) != [] {
        assert AcceptedLines(a) == [Lines.Clean(a[0])] + AcceptedLines(a[1..]);
        forall k | 0 <= k < |AcceptedLines(a)|
          ensures AcceptedLines(a)[k] == Lines.Clean(a[k]) && Accepted(Lines.Clean(a[k]))
        {
          if k > 0 { assert AcceptedLines(a)[k] == AcceptedLines(a[1..])[k - 1] && a[k] == a[1..][k - 1]; }
        }
      }
    }
  }

  /** Of the lines sent, however much has arrived, the server reads those that are
      complete, as it cleans them, up to the first that it refuses. */
  lemma ServedOfSent(lines: seq<string>, arrived: string)
    requires Lines.AllNewlineFree(lines) && arrived <= Lines.Join(lines)
    ensures Served(arrived) <= AcceptedLines(lines) && |Served(arrived)| <= |lines|
    ensures forall k | 0 <= k < |Served(arrived)| :: Served(arrived)[k] == Lines.Clean(lines[k])
    ensures arrived == Lines.Join(lines) ==> Served(arrived) == AcceptedLines(lines)
  {
    Lines.OfJoin(lines);
    Lines.OfPrefix(arrived, Lines.Join(lines));
    ServedExactly(arrived);
    hide Served, AcceptedLines, Lines.Clean, Lines.Of, Lines.Join;
    AcceptedPrefix(Lines.Of(arrived).lines, lines);
    AcceptedPrefix(lines, lines);
  }

  lemma {:induction false} AcceptedUpTo(lines: seq<string>, k: nat)
    requires k < |lines| && forall m | 0 <= m <= k :: Accepted(Lines.Clean(lines[m]))
    ensures k < |AcceptedLines(lines)|
  {
    hide Accepted, Lines.Clean;
    assert Accepted(Lines.Clean(lines[0]));
    if k > 0 {
      assert forall m | 0 <= m <= k - 1 :: lines[1..][m] == lines[m + 1];
      AcceptedUpTo(lines[1..], k - 1);
    }
  }

  lemma ServedGrows(s: string, t: string)
    requires s <= t
    ensures Served(s) <= Served(t)
  {
    ServedExactly(s);
    ServedExactly(t);
    Lines.OfPrefix(s, t);
    hide Served, AcceptedLines, Lines.Of;
    AcceptedPrefix(Lines.Of(s).lines, Lines.Of(t).lines);
  }

  // ----- Answering -----

  datatype Request = Request(id: int, body: string)

  /** What becomes of a line: bad JSON is answered; JSON that is not a request
      object raises an exception that nothing catches. */
  datatype Parsed = BadJson | Fields(request: Request) | Escapes

  datatype Reply = Reply(id: int, ok: bool, body: string)

  /** The handler's outcome for the k-th line of the connection. */
  type Answers = nat -> (bool, string)

  function ReplyTo(parsed: Parsed, answer: (bool, string)): Reply {
    if parsed.Fields? then Reply(parsed.request.id, answer.0, answer.1) else Reply(0, false, "bad-json")
  }

  function Replies(lines: seq<string>, parse: string -> Parsed, answers: Answers): (r: seq<Reply>)
    ensures |r| == |lines| && forall k | 0 <= k < |r| :: r[k] == ReplyTo(parse(lines[k]), answers(k))
  {
    seq(|lines|, k requires 0 <= k < |lines| => ReplyTo(parse(lines[k]), answers(k)))
  }

  /** The request loop of one connection. `written(k)` says whether the k-th reply
      can be written. Line by line in order: a request gets the handler's outcome
      under its own id, and bad JSON a refusal under id 0. The loop ends early at the
      first line whose reply cannot be written or that raises an exception, and there only. */
  method ServeConnection(chunks: seq<string>, parse: string -> Parsed, answers: Answers, written: nat -> bool)
      returns (replies: seq<Reply>)
    ensures var all := Served(Lines.Delivered(chunks));
      && |replies| <= |all|
      && (forall k | 0 <= k < |replies| :: written(k) && !parse(all[k]).Escapes?)
      && (forall k | 0 <= k < |replies| && parse(all[k]).Fields? ::
            replies[k].id == parse(all[k]).request.id && replies[k].ok == answers(k).0 && replies[k].body == answers(k).1)
      && (forall k | 0 <= k < |replies| && parse(all[k]).BadJson? ::
            replies[k].id == 0 && !replies[k].ok && replies[k].body == "bad-json")
      && (|replies| < |all| ==> parse(all[|replies|]).Escapes? || !written(|replies|))
  {
    hide Served, Take, Replies, ReplyTo, Pending, Lines.Delivered;
    ghost var all, handled := Served(Lines.Delivered(chunks)), [];
    ServedUnfolds(Lines.Delivered(chunks));
    var reader := new LineReader(chunks);
    replies := [];
    var line := reader.Next();
    while line != ""
      invariant reader.Valid() && |replies| == |handled|
      invariant all == handled + Pending(line, reader.Rest())
      invariant replies == Replies(handled, parse, answers)
      invariant forall k | 0 <= k < |handled| :: written(k) && !parse(handled[k]).Escapes?
      decreases |all| - |handled|
    {
      Unhandled(all, handled, line, reader.Rest());
      var parsed := parse(line);
      if parsed.Escapes? { break; }
      if !written(|replies|) { break; }
      replies := replies + [ReplyTo(parsed, answers(|replies|))];
      ghost var rest := reader.Rest();
      RepliesSnoc(handled, line, parse, answers);
      handled := handled + [line];
      line := reader.Next();
      ServedUnfolds(rest);
    }
    AllHandled(all, handled, line, reader.Rest());
    ReplyFields(all, handled, parse, answers);
  }

  /** The replies to the lines handled so far, field by field. */
  lemma ReplyFields(all: seq<string>, handled: seq<string>, parse: string -> Parsed, answers: Answers)
    requires handled <= all
    ensures forall k | 0 <= k < |handled| :: all[k] == handled[k]
    ensures var replies := Replies(handled, parse, answers);
      && (forall k | 0 <= k < |replies| && parse(all[k]).Fields? ::
            replies[k].id == parse(all[k]).request.id && replies[k].ok == answers(k).0 && replies[k].body == answers(k).1)
      && (forall k | 0 <= k < |replies| && parse(all[k]).BadJson? ::
            replies[k].id == 0 && !replies[k].ok && replies[k].body == "bad-json")
  {
  }

  /** What is still to be served when `line` has just been read. */
  ghost function Pending(line: string, rest: string): seq<string> {
    if line == "" then [] else [line] + Served(rest)
  }

  lemma AllHandled(all: seq<string>, handled: seq<string>, line: string, rest: string)
    requires all == handled + Pending(line, rest)
    ensures handled <= all && (line == "" ==> all == handled)
    ensures line != "" ==> |handled| < |all| && all[|handled|] == line
  {
    hide Served;
  }

  lemma Unhandled(all: seq<string>, handled: seq<string>, line: string, rest: string)
    requires line != "" && all == handled + Pending(line, rest)
    ensures |handled| < |all| && all[|handled|] == line && all == handled + [line] + Served(rest)
  {
    hide Served;
  }

  lemma ServedUnfolds(s: string)
    ensures Served(s) == Pending(Take(s, "").0, Take(s, "").1)
  {
  }

  lemma RepliesSnoc(a: seq<string>, line: string, parse: string -> Parsed, answers: Answers)
    ensures Replies(a + [line], parse, answers) == Replies(a, parse, answers) + [ReplyTo(parse(line), answers(|a|))]
  {
  }

  // ----- Writing whole messages -----

  /** The bytes written so far, the messages whose writers are done, and the one
      being written, with how much of it is out. */
  datatype Output = Output(bytes: string, done: seq<string>, current: Option<(string, nat)>)

  datatype WriteStep = Begin(message: string) | Push(count: nat) | Finish

  /** A message starts only when the write mutex is free, and its writer lets go
      of the mutex only when all of it, newline included, is out. */
  function Write(o: Output, step: WriteStep): Output {
    match step
    case Begin(message) => if o.current.None? then o.(current := Some((message, 0))) else o
    case Push(count) =>
      if o.current.None? then o
      else
        var (message, sent) := o.current.value;
        var all := message + "\n";
        var upTo := if sent + count <= |all| then sent + count else |all|;
        if sent <= upTo then Output(o.bytes + all[sent..upTo], o.done, Some((message, upTo))) else o
    case Finish =>
      if o.current.Some? && o.current.value.1 == |o.current.value.0| + 1
      then Output(o.bytes, o.done + [o.current.value.0], None) else o
  }

  const NO_OUTPUT := Output("", [], None)

  predicate OutputOk(o: Output) {
    && Lines.AllNewlineFree(o.done)
    && (o.current.Some? ==> Lines.NewlineFree(o.current.value.0) && o.current.value.1 <= |o.current.value.0| + 1)
    && o.bytes == Lines.Join(o.done)
         + if o.current.None? then "" else (o.current.value.0 + "\n")[..o.current.value.1]
  }

  lemma PushKeepsOk(o: Output, count: nat)
    requires OutputOk(o) && o.current.Some?
    ensures OutputOk(Write(o, Push(count)))
  {
    var (message, sent) := o.current.value;
    var all := message + "\n";
    var upTo := if sent + count <= |all| then sent + count else |all|;
    assert all[..sent] + all[sent..upTo] == all[..upTo];
    hide Lines.Join, Lines.AllNewlineFree, Lines.NewlineFree;
    Lines.Associative(Lines.Join(o.done), all[..sent], all[sent..upTo]);
  }

  lemma FinishKeepsOk(o: Output)
    requires OutputOk(o) && o.current.Some? && o.current.value.1 == |o.current.value.0| + 1
    ensures OutputOk(Write(o, Finish))
  {
    var (message, sent) := o.current.value;
    assert (message + "\n")[..sent] == message + "\n";
    hide Lines.Join, Lines.NewlineFree;
    Lines.JoinSnoc(o.done, message);
    Lines.Associative(Lines.Join(o.done), message, "\n");
    assert Lines.Join(o.done + [message]) + "" == Lines.Join(o.done + [message]);
  }

  lemma WriteKeepsOk(o: Output, step: WriteStep)
    requires OutputOk(o) && (step.Begin? ==> Lines.NewlineFree(step.message))
    ensures OutputOk(Write(o, step))
  {
    hide Lines.Join, Lines.AllNewlineFree, Lines.NewlineFree;
    if step.Begin? {
      assert (step.message + "\n")[..0] == "";
    } else if o.current.Some? && step.Push? {
      PushKeepsOk(o, step.count);
    } else if o.current.Some? && o.current.value.1 == |o.current.value.0| + 1 {
      FinishKeepsOk(o);
    }
  }

  /** The complete lines on the pipe are the messages whose writers are done, and
      the current one once its newline is out. */
  lemma WholeLines(o: Output)
    requires OutputOk(o)
    ensures Lines.Of(o.bytes).lines == o.done
      + if o.current.Some? && o.current.value.1 == |o.current.value.0| + 1 then [o.current.value.0] else []
  {
    Lines.OfJoin(o.done);
    if o.current.Some? {
      var (message, sent) := o.current.value;
      if sent == |message| + 1 {
        assert (message + "\n")[..sent] == message + "\n";
        Lines.OfAppendLine(Lines.Join(o.done), message);
        assert o.bytes == Lines.Join(o.done) + message + "\n";
      } else {
        var part := (message + "\n")[..sent];
        assert part == message[..sent];
        Lines.OfConcat(Lines.Join(o.done), part);
        Lines.OfNewlineFree(part);
        assert "" + part == part;
      }
    } else {
      assert o.bytes == Lines.Join(o.done);
    }
  }

  /** At every moment, however the writers' threads interleave, the complete lines
      on the pipe are whole messages in the order in which they got the mutex:
      those written, and the current one once its newline is out. */
  lemma MessagesNeverSplit(steps: seq<WriteStep>)
    requires forall i | 0 <= i < |steps| && steps[i].Begin? :: Lines.NewlineFree(steps[i].message)
    ensures var o := Fold(Write, NO_OUTPUT, steps);
      Lines.Of(o.bytes).lines == o.done
        + if o.current.Some? && o.current.value.1 == |o.current.value.0| + 1 then [o.current.value.0] else []
  {
    OutputStaysOk(steps);
    WholeLines(Fold(Write, NO_OUTPUT, steps));
  }

  lemma {:induction false} OutputStaysOk(steps: seq<WriteStep>)
    requires forall i | 0 <= i < |steps| && steps[i].Begin? :: Lines.NewlineFree(steps[i].message)
    ensures OutputOk(Fold(Write, NO_OUTPUT, steps))
  {
    if steps != [] {
      var n := |steps| - 1;
      OutputStaysOk(steps[..n]);
      WriteKeepsOk(Fold(Write, NO_OUTPUT, steps[..n]), steps[n]);
    }
  }

  /** Line by line: the k-th line that is read is the k-th that arrived completely,
      without its carriage returns, and the first that is not read is blank or longer
      than 262144 characters. */
  lemma ServedLines(s: string)
    ensures var lines, n := Lines.Of(s).lines, |Served(s)|;
      && n <= |lines|
      && (forall k | 0 <= k < n :: Served(s)[k] == Lines.Clean(lines[k]) && 0 < |Served(s)[k]| <= 262144)
      && (n < |lines| ==> Lines.Clean(lines[n]) == "" || |Lines.Clean(lines[n])| > 262144)
  {
    ServedExactly(s);
    hide Served, Lines.Clean, Lines.Of;
    AcceptedAre(Lines.Of(s).lines);
  }

  lemma {:induction false} AcceptedAre(lines: seq<string>)
    ensures var n := |AcceptedLines(lines)|;
      && n <= |lines|
      && (forall k | 0 <= k < n ::
            AcceptedLines(lines)[k] == Lines.Clean(lines[k]) && 0 < |AcceptedLines(lines)[k]| <= 262144)
      && (n < |lines| ==> Lines.Clean(lines[n]) == "" || |Lines.Clean(lines[n])| > 262144)
  {
    hide Lines.Clean;
    if AcceptedLines(lines) != [] {
      AcceptedAre(lines[1..]);
    }
  }
}
