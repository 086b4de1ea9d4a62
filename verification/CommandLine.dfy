/**
 Command lines for child processes: how `SupervisedProcess` prints an
 executable and its arguments into one string, and how the child's
 `CommandLineToArgvW` takes that string apart again.
 */
module CommandLine {

  predicate IsBlank(c: char) {
    c == ' ' || c == '\t'
  }

  function Backslashes(n: nat): (s: string)
    ensures |s| == n && forall i | 0 <= i < n :: s[i] == '\\'
  {
    seq(n, i => '\\')
  }

  // ----- The printer -----

  predicate NeedsQuotes(s: string) {
    s == "" || exists i | 0 <= i < |s| :: IsBlank(s[i]) || s[i] == '"'
  }

  /** The inside of a quoted argument, after `bs` backslashes not yet written. */
  function Escaped(s: string, bs: nat): string {
    if s == "" then Backslashes(2 * bs)
    else if s[0] == '\\' then Escaped(s[1..], bs + 1)
    else if s[0] == '"' then Backslashes(2 * bs + 1) + "\"" + Escaped(s[1..], 0)
    else Backslashes(bs) + [s[0]] + Escaped(s[1..], 0)
  }

  function Quoted(s: string): string {
    if NeedsQuotes(s) then "\"" + (Escaped(s, 0) + "\"") else s
  }

  function QuotedArgs(args: seq<string>): string {
    if args == [] then "" else " " + Quoted(args[0]) + QuotedArgs(args[1..])
  }

  function Printed(exe: string, args: seq<string>): string {
    Quoted(exe) + QuotedArgs(args)
  }

  method Quote(s: string) returns (out: string)
    ensures out == Quoted(s)
  {
    if !NeedsQuotes(s) { return s; }
    out := "\"";
    var bs := 0;
    for i := 0 to |s|
      invariant out + Escaped(s[i..], bs) == "\"" + Escaped(s, 0)
    {
      ghost var before := out + Escaped(s[i..], bs);
      assert s[i..][1..] == s[i + 1..];
      if s[i] == '\\' {
        bs := bs + 1;
      } else if s[i] == '"' {
        out := out + Backslashes(bs * 2 + 1);
        out := out + ['"'];
        bs := 0;
        assert out + Escaped(s[i + 1..], bs) == before;
      } else {
        if bs > 0 { out := out + Backslashes(bs); }
        bs := 0;
        out := out + [s[i]];
        assert out + Escaped(s[i + 1..], bs) == before;
      }
    }
    assert s[|s|..] == "" && Backslashes(0) == "";
    if bs > 0 { out := out + Backslashes(bs * 2); }
    assert out == "\"" + Escaped(s, 0);
    out := out + "\"";
  }

  method BuildCommandLine(exe: string, args: seq<string>) returns (cmd: string)
    ensures cmd == Printed(exe, args)
  {
    cmd := Quote(exe);
    for i := 0 to |args|
      invariant cmd + QuotedArgs(args[i..]) == Printed(exe, args)
    {
      assert args[i..][0] == args[i] && args[i..][1..] == args[i + 1..];
      cmd := cmd + " ";
      var q := Quote(args[i]);
      cmd := cmd + q;
    }
    assert args[|args|..] == [];
  }

  // ----- The child's reader -----

  /** What the system call receives: a NUL ends the string. */
  function UpToNul(s: string): string {
    if s == "" || s[0] == '\0' then "" else [s[0]] + UpToNul(s[1..])
  }

  function SkipBlanks(s: string): (r: string)
    ensures |r| <= |s| && (r != "" ==> !IsBlank(r[0]))
  {
    if s != "" && IsBlank(s[0]) then SkipBlanks(s[1..]) else s
  }

  /** The program name: up to the next quote when it starts with one, otherwise
      up to the next blank. Backslashes have no special meaning in it. */
  function ProgramName(s: string): (string, string) {
    if s != "" && s[0] == '"' then UpToQuote(s[1..]) else UpToBlank(s)
  }

  function UpToQuote(s: string): (string, string) {
    if s == "" then ("", "")
    else if s[0] == '"' then ("", s[1..])
    else var (a, rest) := UpToQuote(s[1..]); ([s[0]] + a, rest)
  }

  function UpToBlank(s: string): (string, string) {
    if s == "" || IsBlank(s[0]) then ("", s)
    else var (a, rest) := UpToBlank(s[1..]); ([s[0]] + a, rest)
  }

  /** One argument. `bs` counts the backslashes just read: before a quote, each
      pair of them is one backslash and an odd one out makes the quote literal;
      elsewhere they stand for themselves. An unescaped quote switches `inQuotes`. */
  function Argument(s: string, acc: string, bs: nat, inQuotes: bool): (r: (string, string))
    ensures |r.1| <= |s|
    ensures s != "" && !IsBlank(s[0]) ==> |r.1| < |s|
  {
    if s == "" then (acc + Backslashes(bs), "")
    else if s[0] == '\\' then Argument(s[1..], acc, bs + 1, inQuotes)
    else if s[0] == '"' then
      if bs % 2 == 0 then Argument(s[1..], acc + Backslashes(bs / 2), 0, !inQuotes)
      else Argument(s[1..], acc + Backslashes(bs / 2) + "\"", 0, inQuotes)
    else if IsBlank(s[0]) && !inQuotes then (acc + Backslashes(bs), s)
    else Argument(s[1..], acc + Backslashes(bs) + [s[0]], 0, inQuotes)
  }

  function Arguments(s: string): seq<string>
    decreases |s|
  {
    var t := SkipBlanks(s);
    if t == "" then []
    else var (a, rest) := Argument(t, "", 0, false); [a] + Arguments(rest)
  }

  function CommandLineToArgv(cmd: string): seq<string> {
    var s := UpToNul(cmd);
    var (exe, rest) := ProgramName(s);
    [exe] + Arguments(rest)
  }

  // ----- Arguments come back -----

  predicate EndsArgument(t: string) {
    t == "" || IsBlank(t[0])
  }

  lemma {:induction false} ReadBackslashes(n: nat, t: string, acc: string, bs: nat, q: bool)
    ensures Argument(Backslashes(n) + t, acc, bs, q) == Argument(t, acc, bs + n, q)
  {
    if n == 0 {
      assert Backslashes(n) + t == t;
    } else {
      assert (Backslashes(n) + t)[1..] == Backslashes(n - 1) + t;
      ReadBackslashes(n - 1, t, acc, bs + 1, q);
    }
  }

  lemma Regroup(a: string, b: string, c: string, d: string)
    ensures a + (b + c) + d == a + b + (c + d)
  {
  }

  lemma MoveBackslash(acc: string, bs: nat, s: string)
    requires s != "" && s[0] == '\\'
    ensures acc + Backslashes(bs + 1) + s[1..] == acc + Backslashes(bs) + s
  {
    assert Backslashes(bs + 1) == Backslashes(bs) + ['\\'];
    Regroup(acc, Backslashes(bs), ['\\'], s[1..]);
    assert s == ['\\'] + s[1..];
  }

  lemma MoveCharacter(acc: string, s: string)
    requires s != ""
    ensures acc + [s[0]] + Backslashes(0) + s[1..] == acc + s
  {
    assert s == [s[0]] + s[1..];
    assert acc + [s[0]] + Backslashes(0) == acc + [s[0]];
    Regroup(acc, [s[0]], "", s[1..]);
  }

  /** The backslashes written before a character, if it is none itself. */
  function Before(c: char, bs: nat): nat {
    if c == '"' then 2 * bs + 1 else bs
  }

  lemma EscapedStep(s: string, bs: nat, t: string)
    requires s != "" && s[0] != '\\'
    ensures Escaped(s, bs) + "\"" + t == Backslashes(Before(s[0], bs)) + ([s[0]] + (Escaped(s[1..], 0) + "\"" + t))
  {
    var b, e := Backslashes(Before(s[0], bs)), Escaped(s[1..], 0);
    assert Escaped(s, bs) == b + [s[0]] + e;
    hide Escaped, Backslashes;
    assert b + [s[0]] + e + "\"" + t == b + ([s[0]] + (e + "\"" + t));
  }

  lemma ReadCharacter(c: char, inner: string, acc: string, bs: nat)
    requires c != '\\'
    ensures Argument([c] + inner, acc, Before(c, bs), true) == Argument(inner, acc + Backslashes(bs) + [c], 0, true)
  {
    assert ([c] + inner)[1..] == inner;
  }

  lemma ReadEscapedEnd(bs: nat, t: string, acc: string)
    ensures Argument(Backslashes(2 * bs) + "\"" + t, acc, 0, true) == Argument(t, acc + Backslashes(bs), 0, false)
  {
    ReadBackslashes(2 * bs, "\"" + t, acc, 0, true);
    assert Backslashes(2 * bs) + "\"" + t == Backslashes(2 * bs) + ("\"" + t);
    assert ("\"" + t)[1..] == t;
  }

  /** Reading the inside of a quoted argument, closing quote included, yields the text. */
  lemma {:induction false} ReadEscaped(s: string, bs: nat, t: string, acc: string)
    ensures Argument(Escaped(s, bs) + "\"" + t, acc, 0, true)
         == Argument(t, acc + Backslashes(bs) + s, 0, false)
  {
    if s == "" {
      ReadEscapedEnd(bs, t, acc);
      assert acc + Backslashes(bs) + s == acc + Backslashes(bs);
    } else if s[0] == '\\' {
      ReadEscaped(s[1..], bs + 1, t, acc);
      MoveBackslash(acc, bs, s);
    } else {
      hide *;
      var inner, acc' := Escaped(s[1..], 0) + "\"" + t, acc + Backslashes(bs) + [s[0]];
      EscapedStep(s, bs, t);
      ReadBackslashes(Before(s[0], bs), [s[0]] + inner, acc, 0, true);
      ReadCharacter(s[0], inner, acc, bs);
      ReadEscaped(s[1..], 0, t, acc');
      MoveCharacter(acc + Backslashes(bs), s);
    }
  }

  /** Text without blanks or quotes is read as it stands. */
  lemma {:induction false} ReadPlain(s: string, t: string, acc: string, bs: nat)
    requires s == "" || !NeedsQuotes(s)
    requires EndsArgument(t)
    ensures Argument(s + t, acc, bs, false) == (acc + Backslashes(bs) + s, t)
  {
    if s == "" {
      assert s + t == t;
      assert acc + Backslashes(bs) + s == acc + Backslashes(bs);
    } else {
      assert (s + t)[1..] == s[1..] + t;
      if s[0] == '\\' {
        ReadPlain(s[1..], t, acc, bs + 1);
        MoveBackslash(acc, bs, s);
      } else {
        ReadPlain(s[1..], t, acc + Backslashes(bs) + [s[0]], 0);
        MoveCharacter(acc + Backslashes(bs), s);
      }
    }
  }

  lemma ReadQuoted(s: string, t: string)
    requires EndsArgument(t)
    ensures Quoted(s) != "" && !IsBlank(Quoted(s)[0])
    ensures Argument(Quoted(s) + t, "", 0, false) == (s, t)
  {
    if NeedsQuotes(s) {
      var inner := Escaped(s, 0) + "\"" + t;
      assert Quoted(s) + t == "\"" + inner;
      assert ("\"" + inner)[1..] == inner;
      ReadEscaped(s, 0, t, "");
      assert "" + Backslashes(0) + s == s;
      assert s + Backslashes(0) == s;
    } else {
      ReadPlain(s, t, "", 0);
      assert "" + Backslashes(0) + s == s;
    }
  }

  lemma NextArgument(all: string, a: string, rest: string)
    requires all != "" && !IsBlank(all[0]) && Argument(all, "", 0, false) == (a, rest)
    ensures Arguments(" " + all) == [a] + Arguments(rest)
  {
    assert (" " + all)[1..] == all;
    assert SkipBlanks(" " + all) == all;
  }

  lemma {:induction false} ReadQuotedArgs(args: seq<string>)
    ensures EndsArgument(QuotedArgs(args)) && Arguments(QuotedArgs(args)) == args
  {
    if args != [] {
      var rest := QuotedArgs(args[1..]);
      ReadQuotedArgs(args[1..]);
      ReadQuoted(args[0], rest);
      assert QuotedArgs(args) == " " + (Quoted(args[0]) + rest);
      assert args == [args[0]] + args[1..];
      hide Quoted, Argument, Arguments;
      NextArgument(Quoted(args[0]) + rest, args[0], rest);
    }
  }

  // ----- The program name comes back in exactly these cases -----

  predicate HasBlank(s: string) {
    exists i | 0 <= i < |s| :: IsBlank(s[i])
  }

  /** No quote in it; and, when a blank forces it into quotes, no backslash at its end. */
  predicate SafeProgramName(exe: string) {
    && '"' !in exe
    && (HasBlank(exe) ==> exe[|exe| - 1] != '\\')
  }

  lemma {:induction false} QuoteEndsName(s: string, t: string)
    requires '"' !in s
    ensures UpToQuote(s + "\"" + t) == (s, t)
  {
    var u := s + "\"" + t;
    if s == "" {
      assert u[1..] == t;
    } else {
      assert u[1..] == s[1..] + "\"" + t;
      QuoteEndsName(s[1..], t);
      assert s == [s[0]] + s[1..];
    }
  }

  lemma {:induction false} BlankEndsName(s: string, t: string)
    requires s == "" || !NeedsQuotes(s)
    requires EndsArgument(t)
    ensures UpToBlank(s + t) == (s, t)
  {
    if s == "" {
      assert s + t == t;
    } else {
      assert (s + t)[1..] == s[1..] + t;
      BlankEndsName(s[1..], t);
      assert s == [s[0]] + s[1..];
    }
  }

  /** Without quotes, escaping only doubles the backslashes at the very end. */
  lemma {:induction false} EscapedWithoutQuotes(s: string, bs: nat)
    requires '"' !in s
    ensures '"' !in Escaped(s, bs)
    ensures |Escaped(s, bs)| >= bs + |s|
    ensures if s == "" then Escaped(s, bs) == Backslashes(2 * bs)
            else if s[|s| - 1] == '\\' then |Escaped(s, bs)| > bs + |s|
            else Escaped(s, bs) == Backslashes(bs) + s
  {
    if s != "" {
      var s' := s[1..];
      if s[0] == '\\' {
        EscapedWithoutQuotes(s', bs + 1);
        assert Backslashes(bs + 1) + s' == Backslashes(bs) + s;
      } else {
        EscapedWithoutQuotes(s', 0);
        if s' != "" && s[|s| - 1] != '\\' {
          assert Backslashes(bs) + [s[0]] + (Backslashes(0) + s') == Backslashes(bs) + s;
        } else if s' == "" {
          assert Backslashes(bs) + [s[0]] + "" == Backslashes(bs) + s;
        }
      }
    }
  }

  lemma {:induction false} NameHasNoQuote(s: string)
    ensures '"' !in UpToQuote(s).0
  {
    if s != "" && s[0] != '"' {
      NameHasNoQuote(s[1..]);
    }
  }

  /** Inside quotes, a name comes back when it has no quote and no backslash at its end. */
  lemma NameInQuotes(exe: string, t: string)
    ensures UpToQuote(Escaped(exe, 0) + "\"" + t).0 == exe <==> '"' !in exe && (exe == "" || exe[|exe| - 1] != '\\')
    ensures '"' !in exe ==> UpToQuote(Escaped(exe, 0) + "\"" + t).1 == t
  {
    NameHasNoQuote(Escaped(exe, 0) + "\"" + t);
    if '"' !in exe {
      EscapedWithoutQuotes(exe, 0);
      assert Backslashes(0) + exe == exe;
      hide Escaped, UpToQuote;
      QuoteEndsName(Escaped(exe, 0), t);
    }
  }

  lemma ProgramNameComesBack(exe: string, t: string)
    requires EndsArgument(t)
    ensures SafeProgramName(exe) ==> ProgramName(Quoted(exe) + t) == (exe, t)
    ensures !SafeProgramName(exe) ==> ProgramName(Quoted(exe) + t).0 != exe
  {
    if !NeedsQuotes(exe) {
      BlankEndsName(exe, t);
    } else {
      var inner := Escaped(exe, 0) + "\"" + t;
      assert Quoted(exe) + t == "\"" + inner;
      assert ("\"" + inner)[1..] == inner;
      hide Escaped, UpToQuote;
      NameInQuotes(exe, t);
    }
  }

  // ----- NUL characters -----

  predicate NulFree(s: string) {
    '\0' !in s
  }

  lemma {:induction false} UpToNulNulFree(s: string)
    ensures NulFree(UpToNul(s))
    ensures NulFree(s) ==> UpToNul(s) == s
  {
    if s != "" && s[0] != '\0' {
      UpToNulNulFree(s[1..]);
      assert s == [s[0]] + s[1..];
    }
  }

  lemma {:induction false} EscapedNulFree(s: string, bs: nat)
    requires NulFree(s)
    ensures NulFree(Escaped(s, bs))
  {
    if s != "" {
      EscapedNulFree(s[1..], if s[0] == '\\' then bs + 1 else 0);
    }
  }

  lemma QuotedNulFree(s: string)
    requires NulFree(s)
    ensures NulFree(Quoted(s))
  {
    EscapedNulFree(s, 0);
  }

  lemma {:induction false} QuotedArgsNulFree(args: seq<string>)
    requires forall i | 0 <= i < |args| :: NulFree(args[i])
    ensures NulFree(QuotedArgs(args))
  {
    if args != [] {
      QuotedNulFree(args[0]);
      QuotedArgsNulFree(args[1..]);
    }
  }

  lemma {:induction false} NameNulFree(s: string)
    requires NulFree(s)
    ensures NulFree(UpToQuote(s).0) && NulFree(UpToQuote(s).1)
    ensures NulFree(UpToBlank(s).0) && NulFree(UpToBlank(s).1)
  {
    if s != "" {
      NameNulFree(s[1..]);
    }
  }

  lemma {:induction false} ArgumentNulFree(s: string, acc: string, bs: nat, q: bool)
    requires NulFree(s) && NulFree(acc)
    ensures NulFree(Argument(s, acc, bs, q).0) && NulFree(Argument(s, acc, bs, q).1)
  {
    if s != "" {
      if s[0] == '\\' {
        ArgumentNulFree(s[1..], acc, bs + 1, q);
      } else if s[0] == '"' {
        if bs % 2 == 0 {
          ArgumentNulFree(s[1..], acc + Backslashes(bs / 2), 0, !q);
        } else {
          ArgumentNulFree(s[1..], acc + Backslashes(bs / 2) + "\"", 0, q);
        }
      } else if !(IsBlank(s[0]) && !q) {
        ArgumentNulFree(s[1..], acc + Backslashes(bs) + [s[0]], 0, q);
      }
    }
  }

  lemma {:induction false} SkipBlanksNulFree(s: string)
    requires NulFree(s)
    ensures NulFree(SkipBlanks(s))
  {
    if s != "" && IsBlank(s[0]) {
      SkipBlanksNulFree(s[1..]);
    }
  }

  lemma {:induction false} ArgumentsNulFree(s: string)
    requires NulFree(s)
    ensures forall i | 0 <= i < |Arguments(s)| :: NulFree(Arguments(s)[i])
    decreases |s|
  {
    SkipBlanksNulFree(s);
    var t := SkipBlanks(s);
    if t != "" {
      ArgumentNulFree(t, "", 0, false);
      ArgumentsNulFree(Argument(t, "", 0, false).1);
    }
  }

  // ----- The theorem -----

  predicate AllNulFree(all: seq<string>) {
    forall i | 0 <= i < |all| :: NulFree(all[i])
  }

  /** Whatever the child sees, no NUL is in it. */
  lemma ArgvNulFree(cmd: string)
    ensures AllNulFree(CommandLineToArgv(cmd))
  {
    var s := UpToNul(cmd);
    UpToNulNulFree(cmd);
    NameNulFree(s);
    if s != "" { NameNulFree(s[1..]); }
    ArgumentsNulFree(ProgramName(s).1);
  }

  /** Without a NUL, all depends on the program name. */
  lemma RoundTripNulFree(exe: string, args: seq<string>)
    requires AllNulFree([exe] + args)
    ensures CommandLineToArgv(Printed(exe, args)) == [exe] + args <==> SafeProgramName(exe)
  {
    var cmd, rest := Printed(exe, args), QuotedArgs(args);
    assert NulFree(([exe] + args)[0]);
    assert forall i | 0 <= i < |args| :: args[i] == ([exe] + args)[i + 1];
    QuotedNulFree(exe);
    QuotedArgsNulFree(args);
    UpToNulNulFree(cmd);
    hide Quoted, QuotedArgs, Arguments, ProgramName, SafeProgramName, UpToNul, NulFree;
    ReadQuotedArgs(args);
    ProgramNameComesBack(exe, rest);
    var argv := CommandLineToArgv(cmd);
    assert argv[0] == ProgramName(Quoted(exe) + rest).0;
    assert ([exe] + args)[0] == exe;
  }

  lemma SafeIs(exe: string, args: seq<string>)
    ensures SafeProgramName(exe) <==> '"' !in exe && (' ' in exe || '\t' in exe ==> exe[|exe| - 1] != '\\')
    ensures AllNulFree([exe] + args) <==> '\0' !in exe && forall i | 0 <= i < |args| :: '\0' !in args[i]
  {
    var all := [exe] + args;
    assert all[0] == exe;
    assert forall i | 0 <= i < |args| :: all[i + 1] == args[i];
  }

  /** The child sees exactly the executable and arguments it was started with
      if and only if none of them holds a NUL and the executable name is safe. */
  lemma RoundTrip(exe: string, args: seq<string>)
    ensures CommandLineToArgv(Printed(exe, args)) == [exe] + args
       <==> && '"' !in exe && (' ' in exe || '\t' in exe ==> exe[|exe| - 1] != '\\')
            && '\0' !in exe && forall i | 0 <= i < |args| :: '\0' !in args[i]
  {
    SafeIs(exe, args);
    hide *;
    ArgvNulFree(Printed(exe, args));
    if AllNulFree([exe] + args) {
      RoundTripNulFree(exe, args);
    }
  }

  /** Only what is empty or holds a blank, a tab or a quote is put in quotes. */
  lemma QuotedIfNeeded(s: string)
    ensures Quoted(s) == s <==> s != "" && ' ' !in s && '\t' !in s && '"' !in s
    ensures Quoted(s) != s ==> |Quoted(s)| >= |s| + 2 && Quoted(s)[0] == '"' && Quoted(s)[|Quoted(s)| - 1] == '"'
  {
    EscapedIsLonger(s, 0);
    assert NeedsQuotes(s) <==> s == "" || ' ' in s || '\t' in s || '"' in s;
  }

  lemma {:induction false} EscapedIsLonger(s: string, bs: nat)
    ensures |Escaped(s, bs)| >= |s| + bs
  {
    if s != "" {
      if s[0] == '\\' { EscapedIsLonger(s[1..], bs + 1); } else { EscapedIsLonger(s[1..], 0); }
    }
  }

  /** One blank stands between the executable and the arguments, and nothing else. */
  lemma {:induction false} PrintedIs(exe: string, args: seq<string>, arg: string)
    ensures Printed(exe, []) == Quoted(exe)
    ensures Printed(exe, args + [arg]) == Printed(exe, args) + " " + Quoted(arg)
  {
    assert Quoted(exe) + "" == Quoted(exe);
    ArgsSnoc(args, arg);
    hide Quoted;
    assert Quoted(exe) + (QuotedArgs(args) + (" " + Quoted(arg))) == Quoted(exe) + QuotedArgs(args) + " " + Quoted(arg);
  }

  lemma {:induction false} ArgsSnoc(args: seq<string>, arg: string)
    ensures QuotedArgs(args + [arg]) == QuotedArgs(args) + (" " + Quoted(arg))
  {
    hide Quoted;
    if args == [] {
      assert [arg][1..] == [] && [] + [arg] == [arg];
    } else {
      assert (args + [arg])[1..] == args[1..] + [arg];
      ArgsSnoc(args[1..], arg);
      assert " " + Quoted(args[0]) + (QuotedArgs(args[1..]) + (" " + Quoted(arg)))
          == " " + Quoted(args[0]) + QuotedArgs(args[1..]) + (" " + Quoted(arg));
    }
  }
}
