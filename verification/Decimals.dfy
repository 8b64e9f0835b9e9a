/** Numbers as text: decimal printing, and reading a number from the front of a text the way
    `parseInt` does with decimal text. */
module Decimals {
  import opened Options

  const DIGITS := "0123456789"

  predicate IsDigit(c: char) { '0' <= c <= '9' }

  predicate AllDigits(s: string) {
    forall i :: 0 <= i < |s| ==> IsDigit(s[i])
  }

  function DigitChar(d: nat): char
    requires d < 10
  {
    DIGITS[d]
  }

  function DigitValue(c: char): (d: nat)
    requires IsDigit(c)
    ensures d < 10
  {
    c as int - '0' as int
  }

  lemma DigitRoundTrip(d: nat)
    requires d < 10
    ensures IsDigit(DigitChar(d)) && DigitValue(DigitChar(d)) == d
  {
    assert d == 0 || d == 1 || d == 2 || d == 3 || d == 4 || d == 5 || d == 6 || d == 7 || d == 8 || d == 9;
  }

  function ToString(n: nat): string {
    if n < 10 then [DigitChar(n)] else ToString(n / 10) + [DigitChar(n % 10)]
  }

  /** The value of a run of digits. */
  function Value(s: string): nat
    requires AllDigits(s)
  {
    if s == "" then 0 else 10 * Value(s[..|s| - 1]) + DigitValue(s[|s| - 1])
  }

  /** The length of the run of digits at the front of a text. */
  function DigitRun(s: string): (n: nat)
    ensures n <= |s| && AllDigits(s[..n])
    ensures n < |s| ==> !IsDigit(s[n])
  {
    if s == "" || !IsDigit(s[0]) then 0
    else
      var m := DigitRun(s[1..]);
      assert forall i :: 0 <= i < 1 + m ==> s[i] == if i == 0 then s[0] else s[1..][..m][i - 1];
      1 + m
  }

  predicate IsSpace(c: char) { c == ' ' || c == '\t' || c == '\n' || c == '\r' }

  function Leading(s: string): Option<nat> {
    if DigitRun(s) == 0 then None else Some(Value(s[..DigitRun(s)]))
  }

  /** White space, a sign, and as many digits as there are; none is no number. */
  function ParseInt(s: string): Option<int> {
    if s == "" then None
    else if IsSpace(s[0]) then ParseInt(s[1..])
    else if s[0] == '-' || s[0] == '+' then
      match Leading(s[1..])
      case None => None
      case Some(v) => Some(if s[0] == '-' then 0 - v else v)
    else
      match Leading(s)
      case None => None
      case Some(v) => Some(v)
  }

  function IntToString(x: int): string {
    if x < 0 then "-" + ToString(0 - x) else ToString(x)
  }

  lemma {:induction false} ToStringDigits(n: nat)
    ensures ToString(n) != "" && AllDigits(ToString(n)) && Value(ToString(n)) == n
  {
    DigitRoundTrip(n % 10);
    if n >= 10 {
      ToStringDigits(n / 10);
      var s := ToString(n / 10);
      assert ToString(n)[..|s|] == s;
    } else {
      assert ToString(n)[..0] == "";
    }
  }

  lemma ToStringInjective(m: nat, n: nat)
    ensures ToString(m) == ToString(n) <==> m == n
  {
    ToStringDigits(m);
    ToStringDigits(n);
  }

  /** A text of digits, ended by anything else, is one run. */
  lemma {:induction false} RunOfDigits(d: string, t: string)
    requires AllDigits(d) && (t != "" ==> !IsDigit(t[0]))
    ensures DigitRun(d + t) == |d| && (d + t)[..|d|] == d && (d + t)[|d|..] == t
  {
    if d == "" {
      assert d + t == t;
    } else {
      assert (d + t)[1..] == d[1..] + t;
      RunOfDigits(d[1..], t);
    }
  }

  /** Reading back what was printed. */
  lemma ParseToString(n: nat)
    ensures ParseInt(ToString(n)) == Some(n)
  {
    ToStringDigits(n);
    var s := ToString(n);
    RunOfDigits(s, "");
    assert s + "" == s;
    assert IsDigit(s[0]);
  }

  /** The text of a number as it may be written: digits, with leading zeros or without. */
  type Numeral = s: string | s != "" && AllDigits(s) witness "0"

  function Num(s: Numeral): nat { Value(s) }

  /** The plain way to write a number. */
  function Written(n: nat): (s: Numeral)
    ensures s == ToString(n) && Num(s) == n
  {
    ToStringDigits(n);
    ToString(n)
  }

  /** However it is written, a number is read as itself. */
  lemma ParseNumeral(s: Numeral)
    ensures ParseInt(s) == Some(Num(s))
  {
    RunOfDigits(s, "");
    assert s + "" == s;
    assert IsDigit(s[0]);
  }

  /** White space, as much as there is. */
  predicate Blank(s: string) {
    forall i :: 0 <= i < |s| ==> s[i] == ' ' || s[i] == '\t' || s[i] == '\n' || s[i] == '\r'
  }

  /** A number is read from the front of a text: after white space and a sign, as far as its digits go. */
  lemma {:induction false} ParsesTheFront(blank: string, sign: string, digits: Numeral, rest: string)
    requires Blank(blank) && (sign == "" || sign == "+" || sign == "-") && (rest != "" ==> !IsDigit(rest[0]))
    ensures ParseInt(blank + sign + digits + rest) == Some(if sign == "-" then 0 - Num(digits) else Num(digits))
    decreases |blank|
  {
    var s := blank + sign + digits + rest;
    if blank != "" {
      assert s[1..] == blank[1..] + sign + digits + rest;
      ParsesTheFront(blank[1..], sign, digits, rest);
    } else {
      RunOfDigits(digits, rest);
      var number := digits + rest;
      assert number[..|digits|] == digits && IsDigit(number[0]);
      if sign == "" { assert s == number; } else { assert s[1..] == number; }
    }
  }

  /** A text that has no number at its front is none: whatever follows white space and a sign is no digit. */
  lemma {:induction false} ParsesNothingElse(blank: string, sign: string, rest: string)
    requires Blank(blank) && (sign == "" || sign == "+" || sign == "-") && (rest != "" ==> !IsDigit(rest[0]))
    requires sign == "" && rest != "" ==> rest[0] != '+' && rest[0] != '-' && !IsSpace(rest[0])
    ensures ParseInt(blank + sign + rest).None?
    decreases |blank|
  {
    var s := blank + sign + rest;
    if blank != "" {
      assert s[1..] == blank[1..] + sign + rest;
      ParsesNothingElse(blank[1..], sign, rest);
    } else if sign == "" {
      assert s == rest;
    } else {
      assert s[1..] == rest;
    }
  }

  /** Reading back any integer that was printed. */
  lemma {:induction false} ParseIntToString(x: int)
    ensures ParseInt(IntToString(x)) == Some(x)
  {
    var n := if x < 0 then 0 - x else x;
    var sign := if x < 0 then "-" else "";
    assert IntToString(x) == "" + sign + Written(n) + "";
    ParsesTheFront("", sign, Written(n), "");
  }
}
