/**
 Decimal text of integers: what an output stream prints for an `int`, and what
 `std::stoi` reads back from the front of a string.
 */
module Decimal {
  import opened Wrappers

  const INT32_MIN := -0x8000_0000
  const INT32_MAX := 0x7fff_ffff

  predicate IsInt32(n: int) {
    INT32_MIN <= n <= INT32_MAX
  }

  predicate IsDigit(c: char) {
    '0' <= c <= '9'
  }

  predicate IsSpace(c: char) {
    c == ' ' || 9 <= c as int <= 13
  }

  function DigitValue(c: char): nat
    requires IsDigit(c)
  {
    c as int - '0' as int
  }

  function Digits(n: nat): string {
    var last := ('0' as int + n % 10) as char;
    if n < 10 then [last] else Digits(n / 10) + [last]
  }

  function ToString(n: int): string {
    if n < 0 then "-" + Digits(-n) else Digits(n)
  }

  predicate AllDigits(s: string) {
    forall i | 0 <= i < |s| :: IsDigit(s[i])
  }

  function Value(s: string): nat
    requires AllDigits(s)
  {
    if s == "" then 0 else Value(s[..|s| - 1]) * 10 + DigitValue(s[|s| - 1])
  }

  /** The longest prefix made of digits. */
  function DigitPrefix(s: string): (p: string)
    ensures AllDigits(p)
  {
    if s != "" && IsDigit(s[0]) then [s[0]] + DigitPrefix(s[1..]) else ""
  }

  function SkipSpaces(s: string): string {
    if s != "" && IsSpace(s[0]) then SkipSpaces(s[1..]) else s
  }

  /** `std::stoi`: leading white space, an optional sign, then digits; whatever
      follows the digits is ignored. No digits, or a value outside 32 bits, is
      an exception, here None. */
  function Stoi(s: string): (r: Option<int>)
    ensures r.Some? ==> IsInt32(r.value)
  {
    var t := SkipSpaces(s);
    var signed := t != "" && (t[0] == '-' || t[0] == '+');
    var d := DigitPrefix(if signed then t[1..] else t);
    if d == "" then None
    else
      var v: int := Value(d);
      var n := if signed && t[0] == '-' then -v else v;
      if IsInt32(n) then Some(n) else None
  }

  lemma {:induction false} DigitsValue(n: nat)
    ensures AllDigits(Digits(n)) && Digits(n) != "" && Value(Digits(n)) == n
  {
    if n < 10 {
      assert Digits(n)[..0] == "";
    } else {
      DigitsValue(n / 10);
      var d := Digits(n);
      assert d[..|d| - 1] == Digits(n / 10);
    }
  }

  lemma {:induction false} PrefixOfDigits(s: string)
    requires AllDigits(s)
    ensures DigitPrefix(s) == s
  {
    if s != "" {
      PrefixOfDigits(s[1..]);
      assert s == [s[0]] + s[1..];
    }
  }

  /** Reading back a printed 32-bit integer gives that integer. */
  lemma StoiToString(n: int)
    requires IsInt32(n)
    ensures Stoi(ToString(n)) == Some(n)
  {
    var m := if n < 0 then -n else n;
    var d := Digits(m);
    DigitsValue(m);
    PrefixOfDigits(d);
    assert IsDigit(d[0]);
    var t := ToString(n);
    assert SkipSpaces(t) == t;
    assert n < 0 ==> t[1..] == d;
  }

  lemma DigitsInjective(m: nat, n: nat)
    requires Digits(m) == Digits(n)
    ensures m == n
  {
    DigitsValue(m);
    DigitsValue(n);
  }

  /** A printed integer holds digits and at most a leading minus sign. */
  lemma ToStringChars(n: int)
    ensures ToString(n) != ""
    ensures forall i | 0 <= i < |ToString(n)| :: IsDigit(ToString(n)[i]) || ToString(n)[i] == '-'
  {
    DigitsValue(if n < 0 then -n else n);
  }

  /** The text is decimal, most significant digit first. */
  lemma DecimalLaws(n: nat)
    ensures n < 10 ==> ToString(n) == ["0123456789"[n]]
    ensures n >= 10 ==> ToString(n) == ToString(n / 10) + ["0123456789"[n % 10]]
    ensures n > 0 ==> ToString(-(n as int)) == "-" + ToString(n)
  {
    assert forall d: nat | d < 10 :: "0123456789"[d] == ('0' as int + d) as char;
  }

  predicate AllSpaces(s: string) {
    forall i | 0 <= i < |s| :: s[i] in {' ', '\t', '\n', '\r', 11 as char, 12 as char}
  }

  lemma {:induction false} SpacesSkipped(s: string, t: string)
    requires AllSpaces(s) && (t != "" ==> !IsSpace(t[0]))
    ensures SkipSpaces(s + t) == t
  {
    if s == "" {
      assert s + t == t;
    } else {
      assert (s + t)[1..] == s[1..] + t;
      SpacesSkipped(s[1..], t);
    }
  }

  lemma {:induction false} PrefixStops(d: string, t: string)
    requires AllDigits(d) && (t != "" ==> !IsDigit(t[0]))
    ensures DigitPrefix(d + t) == d
  {
    if d == "" {
      assert d + t == t;
    } else {
      assert (d + t)[1..] == d[1..] + t && d == [d[0]] + d[1..];
      PrefixStops(d[1..], t);
    }
  }

  /** What `std::stoi` reads: white space, a sign and the digits of a number, whatever
      follows them; a number beyond 32 bits is refused. */
  lemma StoiReads(space: string, sign: string, n: nat, rest: string)
    requires AllSpaces(space) && sign in {"", "+", "-"} && (rest != "" ==> !IsDigit(rest[0]))
    ensures var m: int := if sign == "-" then -(n as int) else n;
      Stoi(space + (sign + ToString(n) + rest)) == if -2147483648 <= m <= 2147483647 then Some(m) else None
  {
    var d := Digits(n);
    var t := sign + d + rest;
    assert ToString(n) == d;
    DigitsValue(n);
    assert IsDigit(d[0]);
    hide Digits, DigitPrefix, SkipSpaces, Value, AllSpaces, ToString;
    PrefixStops(d, rest);
    SignedStart(sign, d, rest);
    SpacesSkipped(space, t);
  }

  lemma SignedStart(sign: string, d: string, rest: string)
    requires sign in {"", "+", "-"} && d != "" && IsDigit(d[0])
    ensures var t := sign + d + rest;
      && t != "" && !IsSpace(t[0]) && (sign == "" <==> t[0] != '-' && t[0] != '+') && (sign == "-" <==> t[0] == '-')
      && (if sign == "" then t else t[1..]) == d + rest
  {
    var t := sign + d + rest;
    assert t[0] == if sign == "" then d[0] else sign[0];
    if sign == "" { assert t == d + rest; } else { assert t[1..] == d + rest; }
  }

  /** Without a digit there is nothing to read. */
  lemma StoiNeedsDigits(space: string, sign: string, rest: string)
    requires AllSpaces(space) && sign in {"", "+", "-"} && (rest != "" ==> !IsDigit(rest[0]))
    requires sign == "" && rest != "" ==> !IsSpace(rest[0]) && rest[0] != '+' && rest[0] != '-'
    ensures Stoi(space + (sign + rest)).None?
  {
    var t := sign + rest;
    SpacesSkipped(space, t);
    assert sign == "" ==> t == rest;
    assert sign != "" ==> t[1..] == rest;
    hide SkipSpaces;
  }
}
