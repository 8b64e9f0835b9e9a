/** The cron compiler: the rewriting of one field of a crontab into a list of numbers, and the matcher that
    works on the result. */
module Crontab {
  import opened Options
  import opened Decimals

  // ---- text -------------------------------------------------------------------------------------

  function Split(s: string, c: char): (r: seq<string>)
    ensures r != []
  {
    if s == "" then [""]
    else
      var r := Split(s[1..], c);
      if s[0] == c then [""] + r else [[s[0]] + r[0]] + r[1..]
  }

  function Join(parts: seq<string>, c: char): string {
    if parts == [] then ""
    else if |parts| == 1 then parts[0]
    else parts[0] + [c] + Join(parts[1..], c)
  }

  lemma {:induction false} SplitAtSeparator(p: string, s: string, c: char)
    requires c !in p
    ensures Split(p, c) == [p]
    ensures Split(p + [c] + s, c) == [p] + Split(s, c)
  {
    if p == "" {
      assert ([c] + s)[1..] == s;
      assert p + [c] + s == [c] + s;
    } else {
      SplitAtSeparator(p[1..], s, c);
      assert (p + [c] + s)[1..] == p[1..] + [c] + s;
      assert [p[0]] + p[1..] == p;
    }
  }

  /** Splitting undoes joining. */
  lemma {:induction false} SplitJoin(parts: seq<string>, c: char)
    requires parts != [] && forall p :: p in parts ==> c !in p
    ensures Split(Join(parts, c), c) == parts
  {
    SplitAtSeparator(parts[0], Join(parts[1..], c), c);
    if |parts| > 1 {
      SplitJoin(parts[1..], c);
    }
  }

  /** The text with the first occurrence of `c` replaced. */
  function ReplaceFirst(s: string, c: char, put: string): string {
    if s == "" then ""
    else if s[0] == c then put + s[1..]
    else [s[0]] + ReplaceFirst(s[1..], c, put)
  }

  /** The text with the first occurrence of `text` replaced. */
  function ReplaceText(s: string, text: string, put: string): string {
    if text <= s then put + s[|text|..]
    else if s == "" then ""
    else [s[0]] + ReplaceText(s[1..], text, put)
  }

  lemma Regroup<T>(x: seq<T>, y: seq<T>, z: seq<T>)
    ensures (x + y) + z == x + (y + z)
  {
  }

  lemma {:induction false} ReplaceFirstAcross(x: string, y: string, c: char, put: string)
    ensures ReplaceFirst(x + y, c, put) == if c in x then ReplaceFirst(x, c, put) + y else x + ReplaceFirst(y, c, put)
  {
    if x == "" {
      assert x + y == y;
    } else {
      assert (x + y)[1..] == x[1..] + y;
      if x[0] == c {
        Regroup(put, x[1..], y);
      } else {
        ReplaceFirstAcross(x[1..], y, c, put);
        Regroup([x[0]], ReplaceFirst(x[1..], c, put), y);
        Regroup([x[0]], x[1..], ReplaceFirst(y, c, put));
        assert [x[0]] + x[1..] == x;
      }
    }
  }

  // ---- names and Sunday -------------------------------------------------------------------------

  function Lower(c: char): char {
    if 'A' <= c <= 'Z' then (c as int + 32) as char else c
  }

  /** The text starts with a name, in upper or lower case. */
  predicate StartsWithName(s: string, name: string) {
    |name| <= |s| && forall i :: 0 <= i < |name| ==> Lower(s[i]) == name[i]
  }

  /** The text with every occurrence of a name replaced. */
  function ReplaceName(s: string, name: string, put: string): string
    requires name != ""
    decreases |s|
  {
    if s == "" then ""
    else if StartsWithName(s, name) then put + ReplaceName(s[|name|..], name, put)
    else [s[0]] + ReplaceName(s[1..], name, put)
  }

  /** A list of names: each starts with a letter. */
  predicate Names(names: seq<string>) {
    forall i :: 0 <= i < |names| ==> names[i] != "" && 'a' <= names[i][0] <= 'z'
  }

  /** The text with each name replaced by its number, counted from `first`. */
  function NumberNames(s: string, names: seq<string>, first: nat): string
    requires Names(names)
  {
    if names == [] then s
    else
      var n := |names| - 1;
      ReplaceName(NumberNames(s, names[..n], first), names[n], ToString(first + n))
  }

  const MONTHS := ["january", "february", "march", "april", "may", "june", "july",
                   "august", "september", "october", "november", "december"]
  const SHORT_MONTHS := ["jan", "feb", "mar", "apr", "may", "jun", "jul", "aug", "sep", "oct", "nov", "dec"]
  const WEEKDAYS := ["sunday", "monday", "tuesday", "wednesday", "thursday", "friday", "saturday"]
  const SHORT_WEEKDAYS := ["sun", "mon", "tue", "wed", "thu", "fri", "sat"]

  lemma NamesAreNames()
    ensures Names(MONTHS) && Names(SHORT_MONTHS) && Names(WEEKDAYS) && Names(SHORT_WEEKDAYS)
  {
  }

  function MonthNumbers(s: string): string {
    NamesAreNames();
    NumberNames(NumberNames(s, MONTHS, 1), SHORT_MONTHS, 1)
  }

  /** The first 7 becomes 0 before the names are replaced. */
  function WeekdayNumbers(s: string): string {
    NamesAreNames();
    NumberNames(NumberNames(ReplaceFirst(s, '7', "0"), WEEKDAYS, 0), SHORT_WEEKDAYS, 0)
  }

  method ConvertNames(s: string, names: seq<string>, first: nat) returns (r: string)
    requires Names(names)
    ensures r == NumberNames(s, names, first)
  {
    r := s;
    for i := 0 to |names|
      invariant r == NumberNames(s, names[..i], first)
    {
      r := ReplaceName(r, names[i], ToString(first + i));
      assert names[..i + 1][..i] == names[..i];
    }
    assert names[..|names|] == names;
  }

  method MonthNamesConversion(s: string) returns (r: string)
    ensures r == MonthNumbers(s)
  {
    NamesAreNames();
    r := ConvertNames(s, MONTHS, 1);
    r := ConvertNames(r, SHORT_MONTHS, 1);
  }

  method WeekDayNamesConversion(s: string) returns (r: string)
    ensures r == WeekdayNumbers(s)
  {
    NamesAreNames();
    r := ConvertNames(ReplaceFirst(s, '7', "0"), WEEKDAYS, 0);
    r := ConvertNames(r, SHORT_WEEKDAYS, 0);
  }

  predicate IsLetter(c: char) { 'a' <= Lower(c) <= 'z' }

  predicate Letterless(s: string) {
    forall i :: 0 <= i < |s| ==> !IsLetter(s[i])
  }

  lemma {:induction false} NoNameFound(s: string, name: string, put: string)
    requires name != "" && 'a' <= name[0] <= 'z' && Letterless(s)
    ensures ReplaceName(s, name, put) == s
  {
    if s != "" {
      assert !IsLetter(s[0]);
      NoNameFound(s[1..], name, put);
    }
  }

  /** A text without letters keeps its text. */
  lemma {:induction false} NoNamesFound(s: string, names: seq<string>, first: nat)
    requires Names(names) && Letterless(s)
    ensures NumberNames(s, names, first) == s
  {
    if names != [] {
      var n := |names| - 1;
      NoNamesFound(s, names[..n], first);
      NoNameFound(s, names[n], ToString(first + n));
    }
  }

  // ---- asterisks --------------------------------------------------------------------------------

  function ConvertAsterisk(s: string, replacement: string): string {
    if '*' in s then ReplaceFirst(s, '*', replacement) else s
  }

  // ---- ranges -----------------------------------------------------------------------------------

  function Numbers(lo: nat, hi: nat): (r: seq<nat>)
    decreases hi - lo
  {
    if lo > hi then [] else [lo] + Numbers(lo + 1, hi)
  }

  function Between(a: nat, b: nat): seq<nat> {
    if a > b then Numbers(b, a) else Numbers(a, b)
  }

  function Texts(ns: seq<nat>): (r: seq<string>)
    ensures |r| == |ns|
    ensures forall i :: 0 <= i < |ns| ==> r[i] == ToString(ns[i])
  {
    seq(|ns|, i requires 0 <= i < |ns| => ToString(ns[i]))
  }

  /** The pattern digits-minus-digits starts the text. */
  predicate RangeHere(s: string) {
    && DigitRun(s) > 0 && DigitRun(s) < |s| && s[DigitRun(s)] == '-'
    && DigitRun(s[DigitRun(s) + 1..]) > 0
  }

  function FirstLength(s: string): nat { DigitRun(s) }

  function LastLength(s: string): nat
    requires RangeHere(s)
  {
    DigitRun(s[DigitRun(s) + 1..])
  }

  function RangeLength(s: string): (n: nat)
    requires RangeHere(s)
    ensures n <= |s|
  {
    FirstLength(s) + 1 + LastLength(s)
  }

  /** What the range at the front of the text is replaced with. */
  function Expansion(s: string): string
    requires RangeHere(s)
  {
    var n := FirstLength(s);
    Join(Texts(Between(Value(s[..n]), Value(s[n + 1..][..LastLength(s)]))), ',')
  }

  /** The position of the leftmost range. */
  function FindRange(s: string): (r: Option<nat>)
    ensures r.Some? ==> r.value <= |s|
  {
    if s == "" then None
    else if RangeHere(s) then Some(0)
    else
      match FindRange(s[1..])
      case None => None
      case Some(i) => Some(i + 1)
  }

  /** One pass: the leftmost range expanded, as a recursion over the text. */
  function ConvertOnce(s: string): Option<string> {
    if s == "" then None
    else if RangeHere(s) then Some(Expansion(s) + s[RangeLength(s)..])
    else Prepend([s[0]], ConvertOnce(s[1..]))
  }

  function Prepend(s: string, o: Option<string>): Option<string> {
    match o
    case None => None
    case Some(t) => Some(s + t)
  }

  function Dashes(s: string): nat {
    if s == "" then 0 else (if s[0] == '-' then 1 else 0) + Dashes(s[1..])
  }

  lemma {:induction false} DashesAdd(x: string, y: string)
    ensures Dashes(x + y) == Dashes(x) + Dashes(y)
  {
    if x == "" {
      assert x + y == y;
    } else {
      assert (x + y)[1..] == x[1..] + y;
      DashesAdd(x[1..], y);
    }
  }

  lemma {:induction false} NoDashes(s: string)
    ensures Dashes(s) == 0 <==> '-' !in s
  {
    if s != "" { NoDashes(s[1..]); }
  }

  lemma {:induction false} JoinedNumbersChars(ns: seq<nat>)
    ensures forall i :: 0 <= i < |Join(Texts(ns), ',')| ==>
      IsDigit(Join(Texts(ns), ',')[i]) || Join(Texts(ns), ',')[i] == ','
  {
    if ns != [] {
      ToStringDigits(ns[0]);
      JoinedNumbersChars(ns[1..]);
      assert Texts(ns)[1..] == Texts(ns[1..]);
    }
  }

  lemma RangeDashes(s: string)
    requires RangeHere(s)
    ensures Dashes(Expansion(s)) == 0
    ensures Dashes(s) == 1 + Dashes(s[RangeLength(s)..])
  {
    var n, m := FirstLength(s), LastLength(s);
    JoinedNumbersChars(Between(Value(s[..n]), Value(s[n + 1..][..m])));
    NoDashes(Expansion(s));
    var first, last, rest := s[..n], s[n + 1..][..m], s[RangeLength(s)..];
    NoDashes(first);
    NoDashes(last);
    assert s == first + (['-'] + (last + rest));
    DashesAdd(first, ['-'] + (last + rest));
    DashesAdd(['-'], last + rest);
    DashesAdd(last, rest);
  }

  /** Each pass removes one minus sign. */
  lemma {:induction false} PassRemovesADash(s: string)
    ensures ConvertOnce(s).Some? ==> Dashes(ConvertOnce(s).value) == Dashes(s) - 1
  {
    if s == "" {
    } else if RangeHere(s) {
      RangeDashes(s);
      DashesAdd(Expansion(s), s[RangeLength(s)..]);
    } else {
      PassRemovesADash(s[1..]);
      if ConvertOnce(s[1..]).Some? {
        DashesAdd([s[0]], ConvertOnce(s[1..]).value);
      }
    }
  }

  /** All ranges expanded, leftmost first. */
  function ConvertRanges(s: string): string
    decreases Dashes(s)
  {
    PassRemovesADash(s);
    match ConvertOnce(s)
    case None => s
    case Some(t) => ConvertRanges(t)
  }

  /** A text that starts with a matched range matches a range itself. */
  lemma RangeIsMaximal(s: string, t: string)
    requires RangeHere(t) && t[..RangeLength(t)] <= s
    ensures RangeHere(s)
  {
    var n, m := FirstLength(t), LastLength(t);
    var text := t[..RangeLength(t)];
    assert s[..n] == text[..n] == t[..n] && s[n] == text[n] == '-';
    RunOfDigits(s[..n], s[n..]);
    assert s == s[..n] + s[n..];
    assert s[n + 1] == text[n + 1] == t[n + 1..][..m][0];
  }

  /** Replacing the text of the leftmost range, wherever it occurs first, expands that range. */
  lemma {:induction false} ReplacesTheMatch(s: string)
    ensures FindRange(s).None? <==> ConvertOnce(s).None?
    ensures FindRange(s).Some? ==> RangeHere(s[FindRange(s).value..])
    ensures FindRange(s).Some? ==>
      var t := s[FindRange(s).value..];
      ConvertOnce(s) == Some(ReplaceText(s, t[..RangeLength(t)], Expansion(t)))
  {
    if s == "" {
    } else if RangeHere(s) {
      assert s[0..] == s;
    } else {
      ReplacesTheMatch(s[1..]);
      if FindRange(s[1..]).Some? {
        var t := s[1..][FindRange(s[1..]).value..];
        assert s[FindRange(s).value..] == t;
        if t[..RangeLength(t)] <= s { RangeIsMaximal(s, t); }
      }
    }
  }

  /** The loop that expands the ranges of a field. */
  method ConvertRange(expression: string) returns (r: string)
    ensures r == ConvertRanges(expression)
  {
    r := expression;
    var found := FindRange(r);
    ReplacesTheMatch(r);
    while found.Some?
      invariant found == FindRange(r)
      invariant ConvertRanges(r) == ConvertRanges(expression)
      decreases Dashes(r)
    {
      ReplacesTheMatch(r);
      PassRemovesADash(r);
      var t := r[found.value..];
      r := ReplaceText(r, t[..RangeLength(t)], Expansion(t));
      found := FindRange(r);
    }
    ReplacesTheMatch(r);
  }

  // ---- steps ------------------------------------------------------------------------------------

  predicate IsWord(c: char) { 'a' <= c <= 'z' || 'A' <= c <= 'Z' || IsDigit(c) || c == '_' }

  predicate AllWord(s: string) {
    forall i :: 0 <= i < |s| ==> IsWord(s[i])
  }

  predicate OneLine(s: string) {
    forall i :: 0 <= i < |s| ==> s[i] != '\n' && s[i] != '\r' && s[i] != '\U{2028}' && s[i] != '\U{2029}'
  }

  function LastSlash(s: string): (r: Option<nat>)
    ensures r.Some? ==> r.value < |s| && s[r.value] == '/' && '/' !in s[r.value + 1..]
    ensures r.None? ==> '/' !in s
  {
    if s == "" then None
    else if s[|s| - 1] == '/' then Some(|s| - 1)
    else
      var r := LastSlash(s[..|s| - 1]);
      assert s == s[..|s| - 1] + [s[|s| - 1]];
      assert r.Some? ==> s[r.value + 1..] == s[..|s| - 1][r.value + 1..] + [s[|s| - 1]];
      r
  }

  /** A text of the form values/divider: something on one line, a slash, and a word to the end. */
  function StepPattern(s: string): Option<(string, string)> {
    match LastSlash(s)
    case None => None
    case Some(i) =>
      if i > 0 && OneLine(s[..i]) && i + 1 < |s| && AllWord(s[i + 1..]) then Some((s[..i], s[i + 1..])) else None
  }

  /** A value kept by a step; a remainder by zero or of no number is not zero. */
  predicate Kept(v: Option<int>, divider: int) {
    v.Some? && divider != 0 && v.value % divider == 0
  }

  function StepValues(values: seq<string>, divider: int): seq<string> {
    if values == [] then []
    else
      var v := ParseInt(values[|values| - 1]);
      var before := StepValues(values[..|values| - 1], divider);
      if Kept(v, divider) then before + [IntToString(v.value)] else before
  }

  /** The field with its step applied; no text if the step is not a number. */
  function ConvertStep(s: string): Option<string> {
    match StepPattern(s)
    case None => Some(s)
    case Some((values, base)) =>
      match ParseInt(base)
      case None => None
      case Some(divider) => Some(Join(StepValues(Split(values, ','), divider), ','))
  }

  /** The loop over the values runs one index too far, where there is no number. */
  method ApplyStep(values: seq<string>, divider: int) returns (stepValues: seq<string>)
    ensures stepValues == StepValues(values, divider)
  {
    stepValues := [];
    for j := 0 to |values| + 1
      invariant stepValues == StepValues(values[..if j <= |values| then j else |values|], divider)
    {
      var v := if j < |values| then ParseInt(values[j]) else None;
      if j < |values| { assert values[..j + 1][..j] == values[..j]; }
      if Kept(v, divider) {
        stepValues := stepValues + [IntToString(v.value)];
      }
    }
    assert values[..|values|] == values;
  }

  // ---- numbers, validation, matching ------------------------------------------------------------

  function NormalNumber(s: string): string {
    match ParseInt(s)
    case None => "NaN"
    case Some(v) => IntToString(v)
  }

  function NormalNumbers(parts: seq<string>): (r: seq<string>)
    ensures |r| == |parts|
    ensures forall i :: 0 <= i < |r| ==> r[i] == NormalNumber(parts[i])
  {
    seq(|parts|, i requires 0 <= i < |parts| => NormalNumber(parts[i]))
  }

  function Normalize(s: string): string {
    Join(NormalNumbers(Split(s, ',')), ',')
  }

  /** Digits, an asterisk, or an asterisk with a numeric step. */
  predicate Permitted(s: string) {
    || (s != "" && AllDigits(s))
    || s == "*"
    || (|s| > 2 && s[0] == '*' && s[1] == '/' && AllDigits(s[2..]))
  }

  predicate OptionOk(s: string, min: int, max: int) {
    (ParseInt(s).Some? ==> min <= ParseInt(s).value <= max) && Permitted(s)
  }

  predicate IsValid(s: string, min: int, max: int) {
    forall i :: 0 <= i < |Split(s, ',')| ==> OptionOk(Split(s, ',')[i], min, max)
  }

  method IsValidExpression(s: string, min: int, max: int) returns (ok: bool)
    ensures ok == IsValid(s, min, max)
  {
    var options := Split(s, ',');
    for i := 0 to |options|
      invariant forall k :: 0 <= k < i ==> OptionOk(options[k], min, max)
    {
      var number := ParseInt(options[i]);
      if (number.Some? && (number.value < min || number.value > max)) || !Permitted(options[i]) {
        return false;
      }
    }
    ok := true;
  }

  predicate MatchPattern(pattern: string, n: nat) {
    if ',' in pattern then ToString(n) in Split(pattern, ',') else pattern == ToString(n)
  }

  // ---- all fields, in place ---------------------------------------------------------------------

  /** A field rewritten completely. */
  function Compile(s: string, star: string): Option<string> {
    match ConvertStep(ConvertRanges(ConvertAsterisk(s, star)))
    case None => None
    case Some(t) => Some(Normalize(t))
  }

  const STARS := ["0-59", "0-59", "0-23", "1-31", "1-12", "0-6"]

  /** The field at a position with its names, and a 7 for Sunday, replaced by numbers. */
  function Named(i: nat, s: string): string {
    if i == 4 then MonthNumbers(s) else if i == 5 then WeekdayNumbers(s) else s
  }

  /** The field at one of the six positions, rewritten completely. */
  function CompileField(i: nat, s: string): Option<string>
    requires i < |STARS|
  {
    Compile(Named(i, s), STARS[i])
  }

  method ConvertAsterisksToRanges(expressions: array<string>)
    requires expressions.Length >= |STARS|
    modifies expressions
    ensures forall i :: 0 <= i < |STARS| ==> expressions[i] == ConvertAsterisk(old(expressions[i]), STARS[i])
    ensures forall i :: |STARS| <= i < expressions.Length ==> expressions[i] == old(expressions[i])
  {
    for i := 0 to |STARS|
      invariant forall k :: 0 <= k < i ==> expressions[k] == ConvertAsterisk(old(expressions[k]), STARS[k])
      invariant forall k :: i <= k < expressions.Length ==> expressions[k] == old(expressions[k])
    {
      expressions[i] := ConvertAsterisk(expressions[i], STARS[i]);
    }
  }

  method ConvertAllRanges(expressions: array<string>)
    modifies expressions
    ensures forall i :: 0 <= i < expressions.Length ==> expressions[i] == ConvertRanges(old(expressions[i]))
  {
    for i := 0 to expressions.Length
      invariant forall k :: 0 <= k < i ==> expressions[k] == ConvertRanges(old(expressions[k]))
      invariant forall k :: i <= k < expressions.Length ==> expressions[k] == old(expressions[k])
    {
      expressions[i] := ConvertRange(expressions[i]);
    }
  }

  /** Stops at the first field whose step is not a number. */
  method ConvertSteps(expressions: array<string>) returns (ok: bool)
    modifies expressions
    ensures ok <==> forall i :: 0 <= i < expressions.Length ==> ConvertStep(old(expressions[i])).Some?
    ensures ok ==> forall i :: 0 <= i < expressions.Length ==> Some(expressions[i]) == ConvertStep(old(expressions[i]))
  {
    for i := 0 to expressions.Length
      invariant forall k :: 0 <= k < i ==> Some(expressions[k]) == ConvertStep(old(expressions[k]))
      invariant forall k :: i <= k < expressions.Length ==> expressions[k] == old(expressions[k])
    {
      var pattern := StepPattern(expressions[i]);
      if pattern.Some? {
        var divider := ParseInt(pattern.value.1);
        if divider.None? {
          return false;
        }
        var stepValues := ApplyStep(Split(pattern.value.0, ','), divider.value);
        expressions[i] := Join(stepValues, ',');
      }
    }
    ok := true;
  }

  method NormalizeIntegers(expressions: array<string>)
    modifies expressions
    ensures forall i :: 0 <= i < expressions.Length ==> expressions[i] == Normalize(old(expressions[i]))
  {
    for i := 0 to expressions.Length
      invariant forall k :: 0 <= k < i ==> expressions[k] == Normalize(old(expressions[k]))
      invariant forall k :: i <= k < expressions.Length ==> expressions[k] == old(expressions[k])
    {
      var numbers := Split(expressions[i], ',');
      var parts := numbers;
      for j := 0 to |parts|
        invariant |numbers| == |parts|
        invariant forall k :: 0 <= k < j ==> numbers[k] == NormalNumber(parts[k])
        invariant forall k :: j <= k < |parts| ==> numbers[k] == parts[k]
      {
        numbers := numbers[j := NormalNumber(numbers[j])];
      }
      assert numbers == NormalNumbers(parts);
      expressions[i] := Join(numbers, ',');
    }
  }

  /** The names, then the four passes, one after the other, over the fields of a crontab. */
  method ConvertFields(expressions: array<string>) returns (ok: bool)
    requires expressions.Length >= |STARS|
    modifies expressions
    ensures ok ==> forall i :: 0 <= i < |STARS| ==> Some(expressions[i]) == CompileField(i, old(expressions[i]))
    ensures ok ==> forall i :: |STARS| <= i < expressions.Length ==>
                     ConvertStep(ConvertRanges(old(expressions[i]))).Some?
    ensures !ok ==> exists i :: 0 <= i < expressions.Length
                                && (if i < |STARS| then CompileField(i, old(expressions[i])).None?
                                    else ConvertStep(ConvertRanges(old(expressions[i]))).None?)
  {
    expressions[4] := MonthNamesConversion(expressions[4]);
    expressions[5] := WeekDayNamesConversion(expressions[5]);
    assert forall i :: 0 <= i < expressions.Length ==> expressions[i] == Named(i, old(expressions[i]));
    ConvertAsterisksToRanges(expressions);
    ConvertAllRanges(expressions);
    ok := ConvertSteps(expressions);
    if ok {
      NormalizeIntegers(expressions);
    }
  }
}
