/**
 The viewer hook's message: one line of JSON printed by the hook program, read
 by the events pipe in chunks, and parsed.
 */
module EventHook {
  import opened Wrappers
  import Lines

  // ----- The hook program -----

  datatype HookEnv = HookEnv(
    eventType: string, path: string, readerType: string, readerId: string,
    readerIp: string, readerPort: string, readerUser: string, query: string)

  /** The index of the last colon, or |s|. */
  function LastColon(s: string): (i: nat)
    ensures i <= |s| && (i < |s| ==> s[i] == ':' && ':' !in s[i + 1..]) && (i == |s| ==> ':' !in s)
  {
    if s == "" then 0
    else if s[|s| - 1] == ':' then |s| - 1
    else
      var n := |s| - 1;
      var i := LastColon(s[..n]);
      assert s == s[..n] + [s[n]];
      if i == n then |s| else
        assert s[i + 1..] == s[..n][i + 1..] + [s[n]];
        i
  }

  function Unbracketed(s: string): string {
    if |s| >= 2 && s[0] == '[' && s[|s| - 1] == ']' then s[1..|s| - 1] else s
  }

  /** Address and port of the reader, from its id when the address is not given by itself. */
  function ReaderAddress(env: HookEnv): (string, string) {
    if env.readerIp != "" || env.readerId == "" then (env.readerIp, env.readerPort)
    else
      var i := LastColon(env.readerId);
      if i == |env.readerId| then (env.readerId, env.readerPort)
      else (Unbracketed(env.readerId[..i]), env.readerId[i + 1..])
  }

  method DeriveReader(env: HookEnv) returns (ip: string, port: string)
    ensures (ip, port) == ReaderAddress(env)
  {
    ip, port := env.readerIp, env.readerPort;
    if ip == "" && env.readerId != "" {
      var pos := LastColon(env.readerId);
      if pos != |env.readerId| {
        ip := env.readerId[..pos];
        port := env.readerId[pos + 1..];
        if |ip| >= 2 && ip[0] == '[' && ip[|ip| - 1] == ']' { ip := ip[1..|ip| - 1]; }
      } else {
        ip := env.readerId;
      }
    }
  }

  lemma {:induction false} LastColonAt(host: string, port: string)
    requires ':' !in port
    ensures LastColon(host + ":" + port) == |host|
  {
    var s := host + ":" + port;
    if port != "" {
      var n := |port| - 1;
      assert s[..|s| - 1] == host + ":" + port[..n];
      assert s[|s| - 1] == port[n];
      assert port[n] != ':' && ':' !in port[..n];
      LastColonAt(host, port[..n]);
    }
  }

  /** An address with a port comes apart again, in brackets or not. */
  lemma ReaderAddressSplits(env: HookEnv, ip: string, port: string, bracketed: bool)
    requires env.readerIp == "" && ':' !in port
    requires !bracketed ==> ip == Unbracketed(ip)
    requires env.readerId == (if bracketed then "[" + ip + "]" else ip) + ":" + port
    ensures ReaderAddress(env) == (ip, port)
  {
    var host := if bracketed then "[" + ip + "]" else ip;
    LastColonAt(host, port);
    assert env.readerId[..|host|] == host && env.readerId[|host| + 1..] == port;
    if bracketed { assert host[1..|host| - 1] == ip; }
  }

  type Fields = seq<(string, string)>

  function FieldsOf(env: HookEnv): Fields {
    var (ip, port) := ReaderAddress(env);
    [("event", env.eventType), ("path", env.path), ("reader_id", env.readerId), ("reader_ip", ip),
     ("reader_port", port), ("reader_user", env.readerUser), ("reader_type", env.readerType), ("query", env.query)]
  }

  function Escape(c: char): string {
    if c == '"' || c == '\\' then ['\\', c] else [c]
  }

  function Escaped(s: string): string {
    if s == "" then ""
    else Escape(s[0]) + Escaped(s[1..])
  }

  lemma EscapedFrom(s: string, i: nat)
    requires i < |s|
    ensures Escaped(s[i..]) == Escape(s[i]) + Escaped(s[i + 1..])
  {
    assert s[i..][1..] == s[i + 1..];
  }

  method JsonEsc(s: string) returns (out: string)
    ensures out == Escaped(s)
  {
    out := "";
    assert s[0..] == s && Escaped(s[|s|..]) == "";
    hide Escaped;
    for i := 0 to |s|
      invariant out + Escaped(s[i..]) == Escaped(s)
    {
      EscapedFrom(s, i);
      Lines.Associative(out, Escape(s[i]), Escaped(s[i + 1..]));
      ghost var before := out;
      if s[i] == '"' || s[i] == '\\' { out := out + ['\\']; }
      out := out + [s[i]];
      assert out == before + Escape(s[i]);
    }
  }

  function Pair(k: string, v: string): string {
    "\"" + k + "\":\"" + Escaped(v) + "\""
  }

  function Members(fields: Fields): string {
    if fields == [] then "}"
    else Pair(fields[0].0, fields[0].1) + (if |fields| == 1 then "" else ",") + Members(fields[1..])
  }

  function Line(fields: Fields): string {
    "{" + Members(fields)
  }

  /** The fields as one object, and a newline. */
  method PrintLine(fields: Fields) returns (line: string)
    ensures line == Line(fields) + "\n"
  {
    line := "{";
    assert fields[0..] == fields;
    hide Escaped;
    for i := 0 to |fields|
      invariant line + Members(fields[i..]) == Line(fields)
    {
      assert fields[i..][0] == fields[i] && fields[i..][1..] == fields[i + 1..];
      var v := JsonEsc(fields[i].1);
      line := line + ("\"" + fields[i].0 + "\":\"" + v + "\"");
      line := line + (if i + 1 == |fields| then "" else ",");
    }
    line := line + "}";
    line := line + "\n";
  }

  /** The hook's output: eight fields, in this order. */
  method HookMain(env: HookEnv) returns (line: string)
    ensures line == Line(FieldsOf(env)) + "\n"
  {
    var ip, port := DeriveReader(env);
    line := PrintLine([("event", env.eventType), ("path", env.path), ("reader_id", env.readerId), ("reader_ip", ip),
                       ("reader_port", port), ("reader_user", env.readerUser), ("reader_type", env.readerType),
                       ("query", env.query)]);
  }

  // ----- The events pipe -----

  const LIMIT: nat := 64 * 1024

  /** Bytes up to the newline or the end, carriage returns dropped; an overlong
      line is cut after one byte too many. */
  function EventLine(s: string, line: string): string {
    if s == "" || s[0] == '\n' then line
    else if s[0] == '\r' then EventLine(s[1..], line)
    else if |line| + 1 > LIMIT then line + [s[0]]
    else EventLine(s[1..], line + [s[0]])
  }

  method ReadEventLine(chunks: seq<string>) returns (line: string)
    ensures line == EventLine(Lines.Delivered(chunks), "")
  {
    line := "";
    var i := 0;
    while i < |chunks| && chunks[i] != ""
      invariant i <= |chunks|
      invariant EventLine(Lines.Delivered(chunks[i..]), line) == EventLine(Lines.Delivered(chunks), "")
    {
      var buf := chunks[i];
      ghost var rest := Lines.Delivered(chunks[i + 1..]);
      assert chunks[i..][1..] == chunks[i + 1..];
      for k := 0 to |buf|
        invariant EventLine(buf[k..] + rest, line) == EventLine(Lines.Delivered(chunks), "")
      {
        assert (buf[k..] + rest)[1..] == buf[k + 1..] + rest;
        if buf[k] == '\n' { return; }
        if buf[k] != '\r' {
          line := line + [buf[k]];
          if |line| > LIMIT { return; }
        }
      }
      assert buf[|buf|..] + rest == rest;
      i := i + 1;
    }
  }

  function UpToNewline(s: string): string {
    if s == "" || s[0] == '\n' then "" else [s[0]] + UpToNewline(s[1..])
  }

  lemma {:induction false} EventLineIs(s: string, line: string)
    requires |line| + |Lines.Clean(UpToNewline(s))| <= LIMIT
    ensures EventLine(s, line) == line + Lines.Clean(UpToNewline(s))
  {
    if s != "" && s[0] != '\n' {
      var u := UpToNewline(s);
      assert u[1..] == UpToNewline(s[1..]);
      if s[0] == '\r' {
        EventLineIs(s[1..], line);
      } else {
        EventLineIs(s[1..], line + [s[0]]);
        assert line + [s[0]] + Lines.Clean(u[1..]) == line + Lines.Clean(u);
      }
    }
  }

  // ----- Parsing JSON objects of strings: RFC 8259, section 7 -----

  predicate IsControl(c: char) {
    c as int < 0x20
  }

  function HexValue(c: char): Option<nat> {
    if '0' <= c <= '9' then Some(c as nat - '0' as nat)
    else if 'a' <= c <= 'f' then Some(c as nat - 'a' as nat + 10)
    else if 'A' <= c <= 'F' then Some(c as nat - 'A' as nat + 10)
    else None
  }

  /** The character that four hexadecimal digits name; surrogates have none. */
  function HexChar(s: string): Option<char>
    requires |s| == 4
  {
    var a, b, c, d := HexValue(s[0]), HexValue(s[1]), HexValue(s[2]), HexValue(s[3]);
    if a.None? || b.None? || c.None? || d.None? then None
    else
      var n := ((a.value * 16 + b.value) * 16 + c.value) * 16 + d.value;
      if n < 0xD800 || 0xE000 <= n < 0x1_0000 then Some(n as char) else None
  }

  function ShortEscape(c: char): Option<char> {
    if c == '"' || c == '\\' || c == '/' then Some(c)
    else if c == 'b' then Some(8 as char)
    else if c == 'f' then Some(12 as char)
    else if c == 'n' then Some('\n')
    else if c == 'r' then Some('\r')
    else if c == 't' then Some('\t')
    else None
  }

  /** The rest of a string after its opening quote: its value, and what follows the closing quote. */
  function ParseString(s: string, acc: string): (r: Option<(string, string)>)
    ensures r.Some? ==> |r.value.1| < |s|
  {
    if s == "" || IsControl(s[0]) then None
    else if s[0] == '"' then Some((acc, s[1..]))
    else if s[0] != '\\' then ParseString(s[1..], acc + [s[0]])
    else if |s| >= 2 && ShortEscape(s[1]).Some? then ParseString(s[2..], acc + [ShortEscape(s[1]).value])
    else if |s| >= 6 && s[1] == 'u' && HexChar(s[2..6]).Some? then ParseString(s[6..], acc + [HexChar(s[2..6]).value])
    else None
  }

  function Expect(s: string, token: string): Option<string> {
    if token <= s then Some(s[|token|..]) else None
  }

  /** One member, and what follows it. */
  function ParseMember(s: string): (r: Option<((string, string), string)>)
    ensures r.Some? ==> |r.value.1| < |s|
  {
    if s == "" || s[0] != '"' then None
    else
      var key := ParseString(s[1..], "");
      if key.None? then None else
      var colon := Expect(key.value.1, ":\"");
      if colon.None? then None else
      var value := ParseString(colon.value, "");
      if value.None? then None else Some(((key.value.0, value.value.0), value.value.1))
  }

  /** The members of an object after its opening brace, to the closing brace at the end of the text. */
  function ParseMembers(s: string): Option<Fields>
    decreases |s|
  {
    if s == "}" then Some([])
    else
      var m := ParseMember(s);
      if m.None? then None
      else if m.value.1 == "}" then Some([m.value.0])
      else if m.value.1 == "" || m.value.1[0] != ',' || m.value.1[1..] == "}" then None
      else
        var more := ParseMembers(m.value.1[1..]);
        if more.None? then None else Some([m.value.0] + more.value)
  }

  function ParseObject(s: string): Option<Fields> {
    if s != "" && s[0] == '{' then ParseMembers(s[1..]) else None
  }

  // ----- What comes through -----

  predicate ControlFree(s: string) {
    forall i | 0 <= i < |s| :: !IsControl(s[i])
  }

  predicate PlainKey(k: string) {
    forall i | 0 <= i < |k| :: !IsControl(k[i]) && k[i] != '"' && k[i] != '\\'
  }

  /** A printed string is read back when it holds no control character, and is refused otherwise. */
  lemma {:induction false} ParseEscaped(v: string, t: string, acc: string)
    ensures ParseString(Escaped(v) + "\"" + t, acc) == if ControlFree(v) then Some((acc + v, t)) else None
  {
    var s := Escaped(v) + "\"" + t;
    if v == "" {
      assert s[1..] == t;
      assert acc + v == acc;
    } else {
      ParseEscaped(v[1..], t, acc + [v[0]]);
      assert acc + [v[0]] + v[1..] == acc + v;
      assert ControlFree(v) <==> !IsControl(v[0]) && ControlFree(v[1..]);
      if v[0] == '"' || v[0] == '\\' {
        assert s[2..] == Escaped(v[1..]) + "\"" + t;
      } else {
        assert s[1..] == Escaped(v[1..]) + "\"" + t;
      }
    }
  }

  /** A printed string that is cut off is refused. */
  lemma {:induction false} ParseCutOff(v: string, acc: string)
    ensures ParseString(Escaped(v), acc).None?
  {
    if v != "" {
      ParseCutOff(v[1..], acc + [v[0]]);
      var s := Escaped(v);
      if v[0] == '"' || v[0] == '\\' {
        assert s[2..] == Escaped(v[1..]);
      } else {
        assert s[1..] == Escaped(v[1..]);
      }
    }
  }

  lemma {:induction false} PlainEscaped(k: string)
    requires PlainKey(k)
    ensures Escaped(k) == k && ControlFree(k)
  {
    if k != "" {
      PlainEscaped(k[1..]);
    }
  }

  predicate AllControlFree(fields: Fields) {
    forall i | 0 <= i < |fields| :: ControlFree(fields[i].1)
  }

  predicate PlainKeys(fields: Fields) {
    forall i | 0 <= i < |fields| :: PlainKey(fields[i].0)
  }

  /** The first member of an object: all depends on its value. */
  lemma ParsePair(k: string, value: string)
    requires PlainKey(k)
    ensures var s, v := "\"" + k + "\":\"" + value, ParseString(value, "");
      s != "}" && ParseMember(s) == if v.None? then None else Some(((k, v.value.0), v.value.1))
  {
    var s := "\"" + k + "\":\"" + value;
    PlainEscaped(k);
    hide *;
    ParseEscaped(k, ":\"" + value, "");
    assert "" + k == k;
    assert "\":\"" == "\"" + ":\"";
    AfterQuote("\"", k, ":\"", value);
    ParseAfterKey(s, k, value);
  }

  lemma AfterQuote(q: string, k: string, c: string, value: string)
    requires |q| == 1
    ensures var s := q + k + (q + c) + value;
      |s| > 1 && s[0] == q[0] && s[1..] == k + q + (c + value)
  {
  }

  lemma ParseAfterKey(s: string, k: string, value: string)
    requires s != "" && s[0] == '"' && ParseString(s[1..], "") == Some((k, ":\"" + value))
    ensures var v := ParseString(value, "");
      ParseMember(s) == if v.None? then None else Some(((k, v.value.0), v.value.1))
  {
    hide ParseString, Expect;
    ExpectFront(":\"", value);
  }

  lemma ExpectFront(token: string, rest: string)
    ensures Expect(token + rest, token) == Some(rest)
  {
    assert token <= token + rest && (token + rest)[|token|..] == rest;
  }

  /** A first member with a printed value, and what follows. */
  lemma ParsePrintedPair(k: string, v: string, rest: string)
    requires PlainKey(k)
    ensures var s := "\"" + k + "\":\"" + (Escaped(v) + ("\"" + rest));
      s != "}" && ParseMember(s) == if ControlFree(v) then Some(((k, v), rest)) else None
  {
    hide Escaped, ParseString, ParseMember, PlainKey, ControlFree;
    ParsePair(k, Escaped(v) + ("\"" + rest));
    ParseEscaped(v, rest, "");
    assert Escaped(v) + ("\"" + rest) == Escaped(v) + "\"" + rest;
    assert "" + v == v;
  }

  // ----- Through the pipe -----

  lemma {:induction false} UpToNewlineConcat(a: string, b: string)
    ensures UpToNewline(a + b) == if '\n' in a then UpToNewline(a) else a + UpToNewline(b)
  {
    if a == "" {
      assert a + b == b;
    } else {
      assert (a + b)[1..] == a[1..] + b;
      UpToNewlineConcat(a[1..], b);
      assert a == [a[0]] + a[1..];
      assert '\n' in a <==> a[0] == '\n' || '\n' in a[1..];
    }
  }

  lemma {:induction false} EscapedConcat(a: string, b: string)
    ensures Escaped(a + b) == Escaped(a) + Escaped(b)
  {
    if a == "" {
      assert a + b == b;
    } else {
      assert (a + b)[1..] == a[1..] + b;
      EscapedConcat(a[1..], b);
    }
  }

  lemma {:induction false} CleanEscaped(v: string)
    ensures Lines.Clean(Escaped(v)) == Escaped(Lines.Clean(v))
  {
    if v != "" {
      CleanEscaped(v[1..]);
      var e := Escape(v[0]);
      Lines.CleanConcat(e, Escaped(v[1..]));
      assert e[1..] == if |e| == 2 then [v[0]] else "";
    }
  }

  lemma {:induction false} UpToNewlineEscaped(v: string)
    ensures UpToNewline(Escaped(v)) == Escaped(UpToNewline(v))
    ensures '\n' in Escaped(v) <==> '\n' in v
  {
    if v != "" {
      UpToNewlineEscaped(v[1..]);
      var e := Escape(v[0]);
      UpToNewlineConcat(e, Escaped(v[1..]));
      assert v == [v[0]] + v[1..];
    }
  }

  lemma {:induction false} CleanPlain(k: string)
    requires ControlFree(k)
    ensures Lines.Clean(k) == k && '\n' !in k && '\r' !in k
  {
    if k != "" { CleanPlain(k[1..]); }
  }

  function Received(s: string): string {
    Lines.Clean(UpToNewline(s))
  }

  lemma UpToNewlineOfPair(k: string, v: string, t: string)
    requires PlainKey(k)
    ensures var start := "\"" + k + "\":\"";
      UpToNewline(Pair(k, v) + t) ==
        if '\n' in v then start + Escaped(UpToNewline(v)) else start + (Escaped(v) + ("\"" + UpToNewline(t)))
  {
    var start, tail := "\"" + k + "\":\"", "\"" + t;
    assert '\n' !in start;
    hide Escaped, UpToNewline;
    UpToNewlineEscaped(v);
    assert Pair(k, v) + t == start + (Escaped(v) + tail);
    UpToNewlineConcat(start, Escaped(v) + tail);
    UpToNewlineConcat(Escaped(v), tail);
    QuoteComesThrough(t);
  }

  lemma QuoteComesThrough(t: string)
    ensures UpToNewline("\"" + t) == "\"" + UpToNewline(t) && Lines.Clean("\"" + t) == "\"" + Lines.Clean(t)
  {
    assert ("\"" + t)[1..] == t;
  }

  /** What the pipe makes of a pair, and of what follows it. */
  lemma ReceivedPair(k: string, v: string, t: string)
    requires PlainKey(k)
    ensures var start := "\"" + k + "\":\"";
      Received(Pair(k, v) + t) ==
        if '\n' in v then start + Escaped(Received(v)) else start + (Escaped(Lines.Clean(v)) + ("\"" + Received(t)))
  {
    var start, u := "\"" + k + "\":\"", UpToNewline(t);
    assert ControlFree(start);
    hide Escaped, UpToNewline, Lines.Clean, Pair, ControlFree;
    UpToNewlineOfPair(k, v, t);
    CleanPlain(start);
    if '\n' in v {
      CleanEscaped(UpToNewline(v));
      Lines.CleanConcat(start, Escaped(UpToNewline(v)));
    } else {
      CleanEscaped(v);
      Lines.CleanConcat(start, Escaped(v) + ("\"" + u));
      Lines.CleanConcat(Escaped(v), "\"" + u);
      QuoteComesThrough(u);
    }
  }

  lemma CleanShortens(v: string)
    ensures Lines.Clean(v) == v <==> '\r' !in v
    ensures ControlFree(v) ==> Lines.Clean(v) == v && '\n' !in v
  {
    CleanLength(v);
    if ControlFree(v) { CleanPlain(v); }
  }

  lemma {:induction false} CleanLength(v: string)
    ensures |Lines.Clean(v)| <= |v| && (Lines.Clean(v) == v <==> '\r' !in v)
    ensures '\r' in v ==> |Lines.Clean(v)| < |v|
  {
    if v != "" {
      CleanLength(v[1..]);
      assert v == [v[0]] + v[1..];
    }
  }

  /** The first member that came through the pipe, as it was printed or spoilt. */
  lemma ParseReceivedPair(k: string, v: string, t: string)
    requires PlainKey(k)
    ensures var s := Received(Pair(k, v) + t);
      && s != "}" && s != "" && s[0] == '"'
      && (ControlFree(v) ==> ParseMember(s) == Some(((k, v), Received(t))))
      && (!ControlFree(v) && ParseMember(s).Some? ==> ParseMember(s).value.0 != (k, v))
  {
    hide *;
    ReceivedPair(k, v, t);
    var start := "\"" + k + "\":\"";
    assert start != "" && start[0] == '"';
    CleanShortens(v);
    if '\n' in v {
      ParsePair(k, Escaped(Received(v)));
      ParseCutOff(Received(v), "");
    } else {
      ParsePrintedPair(k, Lines.Clean(v), Received(t));
      CleanControls(v);
    }
  }

  lemma {:induction false} CleanControls(v: string)
    ensures ControlFree(v) ==> ControlFree(Lines.Clean(v))
    ensures !ControlFree(v) && ControlFree(Lines.Clean(v)) ==> Lines.Clean(v) != v
  {
    if ControlFree(v) { CleanPlain(v); }
  }

  /** What follows a member. */
  function Separated(fields: Fields): string {
    if fields == [] then "}" else "," + Members(fields)
  }

  lemma MembersSplit(fields: Fields)
    requires fields != []
    ensures Members(fields) == Pair(fields[0].0, fields[0].1) + Separated(fields[1..])
  {
    hide Pair;
    var p, rest := Pair(fields[0].0, fields[0].1), fields[1..];
    if rest == [] {
      assert Members(rest) == "}";
    } else {
      Lines.Associative(p, ",", Members(rest));
    }
  }

  lemma AllControlFreeSplit(fields: Fields)
    requires fields != []
    ensures AllControlFree(fields) <==> ControlFree(fields[0].1) && AllControlFree(fields[1..])
  {
    hide ControlFree;
    assert forall i | 1 <= i < |fields| :: fields[i] == fields[1..][i - 1];
  }

  lemma PlainKeysSplit(fields: Fields)
    requires fields != [] && PlainKeys(fields)
    ensures PlainKey(fields[0].0) && PlainKeys(fields[1..])
  {
    hide PlainKey;
  }

  lemma LastMember(s: string, f: (string, string))
    requires s != "}" && ParseMember(s) == Some((f, "}"))
    ensures ParseMembers(s) == Some([f])
  {
    hide ParseMember;
  }

  lemma NextMember(s: string, f: (string, string), tail: string, rest: Fields)
    requires s != "}" && ParseMember(s) == Some((f, "," + tail)) && tail != "}"
    ensures ParseMembers(s) == Some([f] + rest) <==> ParseMembers(tail) == Some(rest)
  {
    hide ParseMember;
    assert ("," + tail)[0] == ',' && ("," + tail)[1..] == tail;
    if ParseMembers(tail).Some? {
      var more := ParseMembers(tail).value;
      assert ([f] + more)[1..] == more && ([f] + rest)[1..] == rest;
    }
  }

  lemma SpoiltMember(s: string, f: (string, string))
    requires s != "}" && (ParseMember(s).Some? ==> ParseMember(s).value.0 != f)
    ensures ParseMembers(s).Some? ==> ParseMembers(s).value != [] && ParseMembers(s).value[0] != f
  {
    hide ParseMember;
  }

  /** What the parser makes of the members that came through the pipe. */
  lemma {:induction false} ParseReceived(fields: Fields)
    requires PlainKeys(fields)
    ensures ParseMembers(Received(Members(fields))) == Some(fields) <==> AllControlFree(fields)
  {
    if fields == [] {
      ReceivedRest(fields);
    } else {
      assert AllControlFree([]);
      hide *;
      var k, v, rest := fields[0].0, fields[0].1, fields[1..];
      assert fields == [(k, v)] + rest;
      MembersSplit(fields);
      AllControlFreeSplit(fields);
      PlainKeysSplit(fields);
      ParseReceivedPair(k, v, Separated(rest));
      ParseReceived(rest);
      ReceivedRest(rest);
      var text := Received(Members(fields));
      if !ControlFree(v) {
        SpoiltMember(text, (k, v));
      } else if rest == [] {
        LastMember(text, (k, v));
        assert fields == [(k, v)];
      } else {
        NextMember(text, (k, v), Received(Members(rest)), rest);
      }
    }
  }

  lemma ReceivedRest(fields: Fields)
    requires PlainKeys(fields)
    ensures fields == [] ==> Received(Members(fields)) == "}"
    ensures Received(Separated(fields)) == if fields == [] then "}" else "," + Received(Members(fields))
    ensures fields != [] ==> Received(Members(fields)) != "" && Received(Members(fields))[0] == '"'
  {
    if fields == [] {
      assert "}"[1..] == "";
    } else {
      CommaComesThrough(Members(fields));
      assert Separated(fields) == "," + Members(fields);
      hide *;
      MembersSplit(fields);
      PlainKeysSplit(fields);
      ParseReceivedPair(fields[0].0, fields[0].1, Separated(fields[1..]));
    }
  }

  lemma CommaComesThrough(t: string)
    ensures Received("," + t) == "," + Received(t)
  {
    assert ("," + t)[1..] == t && ("," + UpToNewline(t))[1..] == UpToNewline(t);
  }

  lemma HookKeysArePlain(env: HookEnv)
    ensures PlainKeys(FieldsOf(env))
  {
  }

  /** Where the reader is: what the environment gives, or what the reader id holds. */
  predicate IsReader(env: HookEnv, ip: string, port: string) {
    if env.readerIp != "" || env.readerId == "" then ip == env.readerIp && port == env.readerPort
    else if ':' !in env.readerId then ip == env.readerId && port == env.readerPort
    else && ':' !in port
         && (env.readerId == ip + ":" + port || env.readerId == "[" + ip + "]:" + port)
  }

  lemma ReaderIs(env: HookEnv)
    ensures IsReader(env, ReaderAddress(env).0, ReaderAddress(env).1)
  {
    hide LastColon;
    var id := env.readerId;
    var i := LastColon(id);
    if i < |id| {
      assert ':' in id;
      Rejoined(id, i);
    }
  }

  lemma Rejoined(id: string, i: nat)
    requires i < |id| && id[i] == ':'
    ensures var host, port := id[..i], id[i + 1..];
      id == Unbracketed(host) + ":" + port || id == "[" + Unbracketed(host) + "]:" + port
  {
    var host, port := id[..i], id[i + 1..];
    assert id == host + ":" + port;
    if |host| >= 2 && host[0] == '[' && host[|host| - 1] == ']' {
      var inner := host[1..|host| - 1];
      assert host == "[" + inner + "]";
      Brackets(inner, port);
    }
  }

  lemma Brackets(inner: string, port: string)
    ensures "[" + inner + "]" + ":" + port == "[" + inner + "]:" + port
  {
    assert "]" + ":" == "]:";
    assert "[" + inner + "]" + ":" + port == "[" + inner + ("]" + ":") + port;
  }

  /** The supervisor gets back all eight values, each under its key, exactly when none
      of them holds a control character, for every way in which the bytes of a line of
      at most 64 KiB are cut into chunks. */
  lemma HookRoundTrip(env: HookEnv, chunks: seq<string>)
    requires Lines.Delivered(chunks) == Line(FieldsOf(env)) + "\n" && |Line(FieldsOf(env))| <= 65536
    ensures var (ip, port) := ReaderAddress(env);
      && IsReader(env, ip, port)
      && (ParseObject(EventLine(Lines.Delivered(chunks), "")) == Some(
           [("event", env.eventType), ("path", env.path), ("reader_id", env.readerId), ("reader_ip", ip),
            ("reader_port", port), ("reader_user", env.readerUser), ("reader_type", env.readerType), ("query", env.query)])
         <==> ControlFree(env.eventType) && ControlFree(env.path) && ControlFree(env.readerId) && ControlFree(ip)
              && ControlFree(port) && ControlFree(env.readerUser) && ControlFree(env.readerType) && ControlFree(env.query))
  {
    ReaderIs(env);
    FieldsRoundTrip(env, chunks);
    SentFree(env);
    hide *;
  }

  lemma SentFree(env: HookEnv)
    ensures var (ip, port) := ReaderAddress(env);
      && FieldsOf(env) ==
           [("event", env.eventType), ("path", env.path), ("reader_id", env.readerId), ("reader_ip", ip),
            ("reader_port", port), ("reader_user", env.readerUser), ("reader_type", env.readerType), ("query", env.query)]
      && (AllControlFree(FieldsOf(env)) <==>
            && ControlFree(env.eventType) && ControlFree(env.path) && ControlFree(env.readerId) && ControlFree(ip)
            && ControlFree(port) && ControlFree(env.readerUser) && ControlFree(env.readerType) && ControlFree(env.query))
  {
    hide ReaderAddress, ControlFree;
    var f := FieldsOf(env);
    if AllControlFree(f) {
      assert ControlFree(f[0].1) && ControlFree(f[1].1) && ControlFree(f[2].1) && ControlFree(f[3].1);
      assert ControlFree(f[4].1) && ControlFree(f[5].1) && ControlFree(f[6].1) && ControlFree(f[7].1);
    }
  }

  lemma FieldsRoundTrip(env: HookEnv, chunks: seq<string>)
    requires Lines.Delivered(chunks) == Line(FieldsOf(env)) + "\n" && |Line(FieldsOf(env))| <= LIMIT
    ensures ParseObject(EventLine(Lines.Delivered(chunks), "")) == Some(FieldsOf(env))
       <==> AllControlFree(FieldsOf(env))
  {
    var fields := FieldsOf(env);
    var line := Line(fields);
    HookKeysArePlain(env);
    hide FieldsOf, Members, ParseMembers, AllControlFree, PlainKeys;
    ParseReceived(fields);
    UpToNewlineConcat(line, "\n");
    UpToNewlineConcat("{", Members(fields));
    Lines.CleanConcat("{", UpToNewline(Members(fields)));
    assert "{"[1..] == "" && line + "" == line && ("\n")[1..] == "";
    assert UpToNewline(line + "\n") == UpToNewline(line) by { WholeLine(line); }
    assert Received(line) == "{" + Received(Members(fields));
    assert Received(line)[1..] == Received(Members(fields));
    CleanLength(UpToNewline(line));
    UpToNewlineLength(line);
    EventLineIs(line + "\n", "");
    assert "" + Received(line) == Received(line);
  }

  lemma {:induction false} WholeLine(s: string)
    ensures UpToNewline(s + "\n") == UpToNewline(s)
  {
    if s != "" {
      assert (s + "\n")[1..] == s[1..] + "\n";
      WholeLine(s[1..]);
    }
  }

  lemma {:induction false} UpToNewlineLength(s: string)
    ensures |UpToNewline(s)| <= |s|
  {
    if s != "" { UpToNewlineLength(s[1..]); }
  }

  /** A line over the limit is cut after one character too many. */
  lemma {:induction false} OverlongIsCut(s: string, line: string)
    requires |line| <= 65536 < |line| + |Lines.Clean(UpToNewline(s))|
    ensures EventLine(s, line) == (line + Lines.Clean(UpToNewline(s)))[..65537]
  {
    var u := UpToNewline(s);
    assert u[1..] == UpToNewline(s[1..]);
    if s[0] == '\r' {
      OverlongIsCut(s[1..], line);
    } else {
      assert line + [s[0]] + Lines.Clean(u[1..]) == line + Lines.Clean(u);
      if |line| < 65536 { OverlongIsCut(s[1..], line + [s[0]]); }
    }
  }

  /** What stands before the first newline. */
  lemma UpToNewlineIs(a: string, b: string)
    requires '\n' !in a
    ensures UpToNewline(a) == a && UpToNewline(a + "\n" + b) == a
  {
    UpToNewlineConcat(a, "");
    assert a + "" == a;
    UpToNewlineConcat(a, "\n" + b);
    assert a + "\n" + b == a + ("\n" + b);
  }

  /** Exactly the quotes and backslashes get a backslash, and nothing is moved. */
  lemma EscapedLaws(a: string, c: char, b: string)
    ensures Escaped(a + [c] + b) == Escaped(a) + (if c == '"' || c == '\\' then ['\\', c] else [c]) + Escaped(b)
    ensures Escaped("") == ""
  {
    EscapedConcat(a + [c], b);
    EscapedConcat(a, [c]);
    assert [c][1..] == "" && Escaped([c]) == Escape(c) + "" == Escape(c);
  }
}
