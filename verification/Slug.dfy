/** Camera names turned into file names. */
module Slug {

  predicate IsAlnum(c: char) {
    'a' <= c <= 'z' || 'A' <= c <= 'Z' || '0' <= c <= '9'
  }

  function Step(out: string, c: char): string {
    if IsAlnum(c) then out + [c]
    else if out != "" && out[|out| - 1] == '-' then out
    else out + "-"
  }

  /** Every run of other characters becomes one dash. */
  function Dashed(name: string): string {
    if name == "" then "" else Step(Dashed(name[..|name| - 1]), name[|name| - 1])
  }

  function TrimDashes(s: string): string {
    if s != "" && s[|s| - 1] == '-' then TrimDashes(s[..|s| - 1]) else s
  }

  function Slugify(name: string): string {
    TrimDashes(Dashed(name))
  }

  /** As the file system compares names: without regard to case. */
  function Lowered(s: string): (r: string)
    ensures |r| == |s|
  {
    seq(|s|, i requires 0 <= i < |s| => if 'A' <= s[i] <= 'Z' then s[i] + 32 as char else s[i])
  }

  method SlugifyName(name: string) returns (out: string)
    ensures out == Slugify(name)
  {
    out := "";
    var prevDash := false;
    for i := 0 to |name|
      invariant out == Dashed(name[..i])
      invariant prevDash == (out != "" && out[|out| - 1] == '-')
    {
      assert name[..i + 1][..i] == name[..i];
      if IsAlnum(name[i]) {
        out := out + [name[i]];
        prevDash := false;
      } else if !prevDash {
        out := out + "-";
        prevDash := true;
      }
    }
    assert name[..|name|] == name;
    while out != "" && out[|out| - 1] == '-'
      invariant TrimDashes(out) == Slugify(name)
      decreases |out|
    {
      out := out[..|out| - 1];
    }
  }

  predicate NoDoubleDash(s: string) {
    forall i | 0 <= i < |s| - 1 :: !(s[i] == '-' && s[i + 1] == '-')
  }

  /** What a slug looks like: letters, digits and single dashes, none at the end. */
  predicate WellFormed(s: string) {
    && (forall i | 0 <= i < |s| :: IsAlnum(s[i]) || s[i] == '-')
    && NoDoubleDash(s)
    && (s != "" ==> s[|s| - 1] != '-')
  }

  lemma {:induction false} DashedShape(name: string)
    ensures forall i | 0 <= i < |Dashed(name)| :: IsAlnum(Dashed(name)[i]) || Dashed(name)[i] == '-'
    ensures NoDoubleDash(Dashed(name))
  {
    if name != "" {
      DashedShape(name[..|name| - 1]);
    }
  }

  lemma {:induction false} DashedFixed(s: string)
    requires forall i | 0 <= i < |s| :: IsAlnum(s[i]) || s[i] == '-'
    requires NoDoubleDash(s)
    ensures Dashed(s) == s
  {
    if s != "" {
      var n := |s| - 1;
      DashedFixed(s[..n]);
      assert s == s[..n] + [s[n]];
      if n > 0 && s[n] == '-' {
        assert s[n - 1] != '-';
      }
    }
  }

  lemma {:induction false} TrimmedShape(s: string)
    requires forall i | 0 <= i < |s| :: IsAlnum(s[i]) || s[i] == '-'
    requires NoDoubleDash(s)
    ensures WellFormed(TrimDashes(s))
  {
    if s != "" && s[|s| - 1] == '-' {
      TrimmedShape(s[..|s| - 1]);
    }
  }

  /** The slugs are exactly the well-formed names, and each is its own slug. */
  lemma SlugsAreFixedPoints(name: string)
    ensures WellFormed(Slugify(name))
    ensures Slugify(name) == name <==> WellFormed(name)
  {
    DashedShape(name);
    TrimmedShape(Dashed(name));
    if WellFormed(name) {
      DashedFixed(name);
    }
  }

  // ----- What the slug of a longer name is -----

  /** By its code: 0 to 9, A to Z, a to z. */
  predicate IsLetterOrDigit(c: char) {
    48 <= c as int <= 57 || 65 <= c as int <= 90 || 97 <= c as int <= 122
  }

  lemma AlnumIs(c: char)
    ensures IsAlnum(c) <==> IsLetterOrDigit(c)
  {
  }

  lemma {:induction false} DashedStart(b: string)
    requires b != "" && IsAlnum(b[0])
    ensures Dashed(b) != "" && Dashed(b)[0] == b[0]
  {
    if |b| > 1 {
      DashedStart(b[..|b| - 1]);
    } else {
      assert b[..0] == "";
    }
  }

  lemma {:induction false} DashedConcat(x: string, b: string)
    requires b != "" ==> IsAlnum(b[0])
    ensures Dashed(x + b) == Dashed(x) + Dashed(b)
  {
    if b == "" {
      assert x + b == x;
    } else {
      var n := |b| - 1;
      assert (x + b)[..|x| + n] == x + b[..n];
      DashedConcat(x, b[..n]);
      if n > 0 { DashedStart(b[..n]); }
      StepAfter(Dashed(x), Dashed(b[..n]), b[n]);
      hide Step;
    }
  }

  lemma StepAfter(x: string, y: string, c: char)
    requires y != "" || IsAlnum(c)
    ensures Step(x + y, c) == x + Step(y, c)
  {
  }

  /** Characters of no other kind than these make one dash of each run. */
  lemma {:induction false} DashedRun(a: string, sep: string)
    requires sep != "" && forall i | 0 <= i < |sep| :: !IsAlnum(sep[i])
    requires a != "" ==> IsAlnum(a[|a| - 1])
    ensures Dashed(a + sep) == Dashed(a) + "-"
  {
    var n := |sep| - 1;
    assert (a + sep)[..|a| + n] == a + sep[..n];
    if n > 0 {
      DashedRun(a, sep[..n]);
    } else {
      assert a + sep[..0] == a;
    }
  }

  lemma {:induction false} TrimConcat(p: string, q: string)
    requires TrimDashes(q) != ""
    ensures TrimDashes(p + q) == p + TrimDashes(q)
  {
    if q[|q| - 1] == '-' {
      assert (p + q)[..|p + q| - 1] == p + q[..|q| - 1];
      TrimConcat(p, q[..|q| - 1]);
    }
  }

  lemma {:induction false} TrimmedStart(q: string)
    requires q != "" && q[0] != '-'
    ensures TrimDashes(q) != ""
  {
    if q[|q| - 1] == '-' { TrimmedStart(q[..|q| - 1]); }
  }

  lemma AlnumIsNoDash(c: char)
    requires IsAlnum(c)
    ensures c != '-'
  {
  }

  /** A name that ends in a letter or digit has nothing to trim. */
  lemma SlugOfWord(a: string)
    requires a != "" ==> IsAlnum(a[|a| - 1])
    ensures Slugify(a) == Dashed(a)
  {
  }

  /** A run of characters other than letters and digits becomes one dash between what
      stands before and after it, and nothing at the end of a name. With the well-formed
      names, which are their own slugs, this says what the slug of every name is. */
  lemma SlugJoins(a: string, sep: string, b: string)
    requires a != "" ==> IsLetterOrDigit(a[|a| - 1])
    requires sep != "" && forall i | 0 <= i < |sep| :: !IsLetterOrDigit(sep[i])
    requires b != "" && IsLetterOrDigit(b[0])
    ensures Slugify(a + sep + b) == Slugify(a) + "-" + Slugify(b)
    ensures Slugify(a + sep) == Slugify(a)
  {
    if a != "" { AlnumIs(a[|a| - 1]); }
    forall i | 0 <= i < |sep| ensures !IsAlnum(sep[i]) { AlnumIs(sep[i]); }
    AlnumIs(b[0]);
    AlnumIsNoDash(b[0]);
    hide IsLetterOrDigit, IsAlnum, Dashed;
    DashedRun(a, sep);
    DashedConcat(a + sep, b);
    DashedStart(b);
    TrimmedStart(Dashed(b));
    SlugOfWord(a);
    TrimConcat(Dashed(a) + "-", Dashed(b));
    assert (Dashed(a) + "-")[..|Dashed(a)|] == Dashed(a);
  }

  /** By their codes: equal, or a capital letter and its small one. */
  predicate SameLetter(c: char, d: char) {
    || c == d
    || (65 <= c as int <= 90 && d as int == c as int + 32)
    || (65 <= d as int <= 90 && c as int == d as int + 32)
  }

  lemma LoweredCodes(s: string, i: nat)
    requires i < |s|
    ensures var c, l := s[i] as int, Lowered(s)[i] as int; l == if 65 <= c <= 90 then c + 32 else c
  {
  }

  /** Texts are the same to the file system if they differ in the case of letters alone. */
  lemma LoweredAgree(a: string, b: string)
    ensures Lowered(a) == Lowered(b) <==> |a| == |b| && forall i | 0 <= i < |a| :: SameLetter(a[i], b[i])
  {
    forall i | 0 <= i < |a| && i < |b| ensures SameLetter(a[i], b[i]) <==> Lowered(a)[i] == Lowered(b)[i] {
      LoweredCodes(a, i);
      LoweredCodes(b, i);
    }
    hide SameLetter;
    if |a| == |b| && forall i | 0 <= i < |a| :: SameLetter(a[i], b[i]) {
      assert forall i | 0 <= i < |a| :: Lowered(a)[i] == Lowered(b)[i];
    }
  }
}
