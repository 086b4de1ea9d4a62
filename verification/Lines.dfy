/**
 Splitting text at newlines. `Of` is the reference definition that the four
 incremental readers of the program are compared with: the stdout reader, the
 control-pipe reader, the events-pipe reader and `std::getline`.
 */
module Lines {

  /** The newline-terminated lines of a text, and what follows the last newline. */
  datatype Split = Split(lines: seq<string>, tail: string)

  function Push(p: Split, c: char): Split {
    if c == '\n' then Split(p.lines + [p.tail], "") else Split(p.lines, p.tail + [c])
  }

  function Of(s: string): Split {
    if s == "" then Split([], "") else Push(Of(s[..|s| - 1]), s[|s| - 1])
  }

  /** Successive `std::getline` results: an unterminated last line counts when it is not empty. */
  function GetLines(s: string): seq<string> {
    Of(s).lines + if Of(s).tail == "" then [] else [Of(s).tail]
  }

  predicate NewlineFree(s: string) {
    '\n' !in s
  }

  predicate AllNewlineFree(lines: seq<string>) {
    forall i | 0 <= i < |lines| :: NewlineFree(lines[i])
  }

  function Join(lines: seq<string>): string {
    if lines == [] then "" else Join(lines[..|lines| - 1]) + lines[|lines| - 1] + "\n"
  }

  /** One carriage return dropped from the end of a line. */
  function DropCR(s: string): string {
    if s != "" && s[|s| - 1] == '\r' then s[..|s| - 1] else s
  }

  function DropCRs(lines: seq<string>): (r: seq<string>)
    ensures |r| == |lines| && forall i | 0 <= i < |r| :: r[i] == DropCR(lines[i])
  {
    seq(|lines|, i requires 0 <= i < |lines| => DropCR(lines[i]))
  }

  /** The bytes that a series of reads delivers: a read of no bytes is the end. */
  function Delivered(chunks: seq<string>): string {
    if chunks == [] || chunks[0] == "" then "" else chunks[0] + Delivered(chunks[1..])
  }

  lemma Associative(a: string, b: string, c: string)
    ensures a + b + c == a + (b + c)
  {
  }

  lemma DeliveredFrom(chunks: seq<string>, i: nat)
    requires i <= |chunks|
    ensures Delivered(chunks[i..])
         == if i == |chunks| || chunks[i] == "" then "" else chunks[i] + Delivered(chunks[i + 1..])
  {
    if i < |chunks| {
      assert chunks[i..][0] == chunks[i] && chunks[i..][1..] == chunks[i + 1..];
    }
  }

  /** The index of the first occurrence of `c`, or |s|. */
  function Find(s: string, c: char): (i: nat)
    ensures i <= |s| && c !in s[..i]
    ensures i < |s| ==> s[i] == c
  {
    if s == "" || s[0] == c then 0 else
      assert s == [s[0]] + s[1..];
      1 + Find(s[1..], c)
  }

  lemma {:induction false} FindAfter(k: string, c: char, v: string)
    requires c !in k
    ensures Find(k + [c] + v, c) == |k|
  {
    if k != "" {
      assert (k + [c] + v)[1..] == k[1..] + [c] + v;
      FindAfter(k[1..], c, v);
    }
  }

  lemma JoinSnoc(lines: seq<string>, l: string)
    ensures Join(lines + [l]) == Join(lines) + l + ['\n']
  {
    assert (lines + [l])[..|lines|] == lines;
  }

  lemma OfSnoc(s: string, c: char)
    ensures Of(s + [c]) == Push(Of(s), c)
  {
    assert (s + [c])[..|s|] == s;
  }

  lemma {:induction false} PiecesNewlineFree(s: string)
    ensures AllNewlineFree(Of(s).lines) && NewlineFree(Of(s).tail)
  {
    if s != "" { PiecesNewlineFree(s[..|s| - 1]); }
  }

  lemma JoinPush(p: Split, c: char)
    ensures var q := Push(p, c); Join(q.lines) + q.tail == Join(p.lines) + p.tail + [c]
  {
    if c == '\n' {
      JoinSnoc(p.lines, p.tail);
      assert Join(p.lines + [p.tail]) + "" == Join(p.lines + [p.tail]);
    } else {
      hide Join;
      Associative(Join(p.lines), p.tail, [c]);
    }
  }

  /** Nothing is lost or moved: the pieces are newline-free and joining them gives the text back. */
  lemma {:induction false} JoinOf(s: string)
    ensures AllNewlineFree(Of(s).lines) && NewlineFree(Of(s).tail)
    ensures Join(Of(s).lines) + Of(s).tail == s
  {
    PiecesNewlineFree(s);
    if s != "" {
      var n := |s| - 1;
      JoinOf(s[..n]);
      assert s == s[..n] + [s[n]] && Of(s) == Push(Of(s[..n]), s[n]);
      hide Of, Join, Push, AllNewlineFree, NewlineFree;
      JoinPush(Of(s[..n]), s[n]);
    }
  }

  lemma NewlineFreeFront(s: string)
    requires NewlineFree(s) && s != ""
    ensures NewlineFree(s[..|s| - 1]) && s[|s| - 1] != '\n'
  {
    assert s[|s| - 1] in s;
    assert forall c | c in s[..|s| - 1] :: c in s;
  }

  lemma {:induction false} OfNewlineFree(s: string)
    requires NewlineFree(s)
    ensures Of(s) == Split([], s)
  {
    if s != "" {
      var n := |s| - 1;
      NewlineFreeFront(s);
      OfNewlineFree(s[..n]);
      assert Of(s) == Push(Split([], s[..n]), s[n]);
      hide Of, NewlineFree;
      assert s == s[..n] + [s[n]];
    }
  }

  /** The first line of a text splits off. */
  lemma {:induction false} OfFirstLine(l: string, r: string)
    requires NewlineFree(l)
    ensures Of(l + "\n" + r) == Split([l] + Of(r).lines, Of(r).tail)
  {
    if r == "" {
      OfNewlineFree(l);
      OfSnoc(l, '\n');
      assert l + "\n" + r == l + ['\n'];
    } else {
      var n := |r| - 1;
      OfFirstLine(l, r[..n]);
      OfSnoc(l + "\n" + r[..n], r[n]);
      assert l + "\n" + r == l + "\n" + r[..n] + [r[n]];
    }
  }

  lemma OfAppendLine(s: string, l: string)
    requires Of(s).tail == "" && NewlineFree(l)
    ensures Of(s + l + "\n") == Split(Of(s).lines + [l], "")
  {
    OfConcat(s, l + "\n");
    OfFirstLine(l, "");
    assert s + l + "\n" == s + (l + "\n") && "" + (l + "\n") == l + "\n" + "";
  }

  /** Joining newline-free lines and splitting again gives those lines back. */
  lemma {:induction false} OfJoin(lines: seq<string>)
    requires AllNewlineFree(lines)
    ensures Of(Join(lines)) == Split(lines, "")
  {
    if lines != [] {
      var n := |lines| - 1;
      OfJoin(lines[..n]);
      OfAppendLine(Join(lines[..n]), lines[n]);
      assert lines == lines[..n] + [lines[n]];
    }
  }

  /** Only the unfinished line of a text meets what follows it. */
  lemma {:induction false} OfConcat(s: string, t: string)
    ensures Of(s + t) == Split(Of(s).lines + Of(Of(s).tail + t).lines, Of(Of(s).tail + t).tail)
  {
    var u := Of(s).tail;
    if t == "" {
      JoinOf(s);
      OfNewlineFree(u);
      assert s + t == s && u + t == u;
    } else {
      var n := |t| - 1;
      hide Of;
      OfConcat(s, t[..n]);
      OfSnoc(s + t[..n], t[n]);
      OfSnoc(u + t[..n], t[n]);
      assert s + t == s + t[..n] + [t[n]] && u + t == u + t[..n] + [t[n]];
    }
  }

  /** More text only adds lines. */
  lemma OfPrefix(s: string, t: string)
    requires s <= t
    ensures Of(s).lines <= Of(t).lines
  {
    hide Of;
    OfConcat(s, t[|s|..]);
    assert s + t[|s|..] == t;
  }

  // ----- Carriage returns -----

  /** A text without its carriage returns. */
  function Clean(s: string): string {
    if s == "" then "" else if s[0] == '\r' then Clean(s[1..]) else [s[0]] + Clean(s[1..])
  }

  lemma {:induction false} CleanConcat(a: string, b: string)
    ensures Clean(a + b) == Clean(a) + Clean(b)
  {
    if a == "" {
      assert a + b == b;
    } else {
      assert (a + b)[1..] == a[1..] + b;
      CleanConcat(a[1..], b);
    }
  }


  /** Nothing but carriage returns is dropped, and nothing is moved. */
  lemma {:induction false} CleanLaws(s: string)
    ensures '\r' !in Clean(s) && ('\r' !in s ==> Clean(s) == s)
    ensures forall t :: Clean(s + "\r" + t) == Clean(s) + Clean(t)
  {
    if s != "" {
      CleanLaws(s[1..]);
      assert s == [s[0]] + s[1..];
    }
    forall t ensures Clean(s + "\r" + t) == Clean(s) + Clean(t) {
      CleanConcat(s + "\r", t);
      CleanConcat(s, "\r");
    }
  }

  /** One carriage return is dropped, from the end of a line only. */
  lemma DropCRIs(s: string)
    ensures DropCR(s + "\r") == s
    ensures (s == "" || s[|s| - 1] != '\r') ==> DropCR(s) == s
  {
    assert (s + "\r")[..|s|] == s;
  }

  /** `std::getline` yields each line, and what follows the last newline if there is anything. */
  lemma GetLinesIs(lines: seq<string>, tail: string)
    requires AllNewlineFree(lines) && NewlineFree(tail)
    ensures GetLines(Join(lines) + tail) == if tail == "" then lines else lines + [tail]
  {
    SplitIs(lines, tail);
  }

  /** Lines and a tail, put together, are split into the same again. */
  lemma SplitIs(lines: seq<string>, tail: string)
    requires AllNewlineFree(lines) && NewlineFree(tail)
    ensures Of(Join(lines) + tail) == Split(lines, tail)
  {
    OfJoin(lines);
    OfConcat(Join(lines), tail);
    OfNewlineFree(tail);
    assert "" + tail == tail && lines + [] == lines;
  }

  /** Joining puts a newline after each line. */
  lemma JoinIs(a: string, b: string)
    ensures Join([]) == "" && Join([a]) == a + "\n" && Join([a, b]) == a + "\n" + b + "\n"
  {
    JoinSnoc([], a);
    JoinSnoc([a], b);
    assert [] + [a] == [a] && [a] + [b] == [a, b];
    assert "" + a == a;
  }
}
