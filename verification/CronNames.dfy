/** Names of months and weekdays in a crontab: wherever they stand in a field, long or short, in upper or lower case,
    they are read as their numbers. */
module CronNames {
  import opened Options
  import opened Decimals
  import opened Crontab
  import opened CronMeaning
  import opened CronWeekdays

  // ---- the calendar's names -----------------------------------------------------------------------

  function MonthName(n: nat): string {
    match n
    case 1 => "january"
    case 2 => "february"
    case 3 => "march"
    case 4 => "april"
    case 5 => "may"
    case 6 => "june"
    case 7 => "july"
    case 8 => "august"
    case 9 => "september"
    case 10 => "october"
    case 11 => "november"
    case _ => "december"
  }

  function WeekdayName(n: nat): string {
    match n
    case 0 => "sunday"
    case 1 => "monday"
    case 2 => "tuesday"
    case 3 => "wednesday"
    case 4 => "thursday"
    case 5 => "friday"
    case _ => "saturday"
  }

  /** A name as it may be written: each letter as it is, or its capital. */
  predicate Spells(s: string, name: string) {
    && |s| == |name|
    && forall i :: 0 <= i < |s| ==> s[i] == name[i] || s[i] as int - 'A' as int == name[i] as int - 'a' as int
  }

  /** A name as the compiler reads it. */
  predicate Reads(s: string, name: string) {
    |s| == |name| && forall i :: 0 <= i < |s| ==> Lower(s[i]) == name[i]
  }

  predicate IsName(name: string) { name != "" && forall i :: 0 <= i < |name| ==> 'a' <= name[i] <= 'z' }

  lemma SpelledIsRead(s: string, name: string)
    requires IsName(name)
    ensures Spells(s, name) <==> Reads(s, name)
  {
    if |s| == |name| {
      forall i | 0 <= i < |s|
        ensures Lower(s[i]) == name[i] <==>
                s[i] == name[i] || s[i] as int - 'A' as int == name[i] as int - 'a' as int
      {
        assert 'a' <= name[i] <= 'z';
      }
    }
  }

  predicate MeansMonth(s: string, n: nat) {
    1 <= n <= 12 && (Spells(s, MonthName(n)) || Spells(s, MonthName(n)[..3]))
  }

  predicate MeansWeekday(s: string, n: nat) {
    n <= 6 && (Spells(s, WeekdayName(n)) || Spells(s, WeekdayName(n)[..3]))
  }

  // ---- one name on its own ------------------------------------------------------------------------

  predicate AllLetters(s: string) {
    forall i :: 0 <= i < |s| ==> IsLetter(s[i])
  }

  /** The name is nowhere in the text. */
  predicate Absent(s: string, name: string) {
    forall p :: 0 <= p && p + |name| <= |s| ==> !StartsWithName(s[p..], name)
  }

  lemma {:induction false} AbsentStays(s: string, name: string, put: string)
    requires name != "" && Absent(s, name)
    ensures ReplaceName(s, name, put) == s
  {
    if s != "" {
      assert s[0..] == s;
      forall p | 0 <= p && p + |name| <= |s[1..]| ensures !StartsWithName(s[1..][p..], name) {
        assert s[1..][p..] == s[p + 1..];
      }
      AbsentStays(s[1..], name, put);
    }
  }

  lemma SpelledIsReplaced(s: string, name: string, put: string)
    requires name != "" && Reads(s, name)
    ensures ReplaceName(s, name, put) == put
  {
    assert s[|name|..] == "";
  }

  /** None of the first `k` names of a list is in the text. */
  predicate NoneOf(s: string, names: seq<string>, k: nat) {
    k <= |names| && forall j :: 0 <= j < k ==> Absent(s, names[j])
  }

  lemma {:induction false} NoneFound(s: string, names: seq<string>, k: nat, first: nat)
    requires Names(names) && NoneOf(s, names, k)
    ensures NumberNames(s, names[..k], first) == s
  {
    if k > 0 {
      assert names[..k][..k - 1] == names[..k - 1];
      NoneFound(s, names, k - 1, first);
      AbsentStays(s, names[k - 1], ToString(first + (k - 1)));
    }
  }

  lemma DigitsLetterless(n: nat)
    ensures Letterless(ToString(n)) && ToString(n) != ""
  {
    ToStringDigits(n);
  }

  lemma {:induction false} FoundOnce(s: string, names: seq<string>, k: nat, first: nat, m: nat)
    requires Names(names) && k < m <= |names| && NoneOf(s, names, k) && Reads(s, names[k])
    ensures NumberNames(s, names[..m], first) == ToString(first + k)
  {
    assert names[..m][..m - 1] == names[..m - 1];
    if m == k + 1 {
      NoneFound(s, names, k, first);
      SpelledIsReplaced(s, names[k], ToString(first + k));
    } else {
      FoundOnce(s, names, k, first, m - 1);
      DigitsLetterless(first + k);
      NoNameFound(ToString(first + k), names[m - 1], ToString(first + (m - 1)));
    }
  }

  /** The text is a name, or is a number already. */
  predicate Uniform(s: string) { AllLetters(s) || Letterless(s) }

  /** Replacing names of a list, one after the other, the text stays a name until it is a number. */
  ghost predicate Steady(s: string, names: seq<string>, first: nat)
    requires Names(names)
  {
    forall k :: 0 <= k <= |names| ==> Uniform(NumberNames(s, names[..k], first))
  }

  lemma FoundIsSteady(s: string, names: seq<string>, k: nat, first: nat)
    requires Names(names) && k < |names| && AllLetters(s) && NoneOf(s, names, k) && Reads(s, names[k])
    ensures Steady(s, names, first)
  {
    forall m | 0 <= m <= |names| ensures Uniform(NumberNames(s, names[..m], first)) {
      if m <= k { NoneFound(s, names, m, first); } else {
        FoundOnce(s, names, k, first, m);
        DigitsLetterless(first + k);
      }
    }
  }

  lemma NoneIsSteady(s: string, names: seq<string>, first: nat)
    requires Names(names) && Uniform(s) && NoneOf(s, names, |names|)
    ensures Steady(s, names, first)
  {
    forall m | 0 <= m <= |names| ensures Uniform(NumberNames(s, names[..m], first)) {
      NoneFound(s, names, m, first);
    }
  }

  lemma LetterlessIsSteady(s: string, names: seq<string>, first: nat)
    requires Names(names) && Letterless(s)
    ensures Steady(s, names, first)
  {
    forall m | 0 <= m <= |names| ensures Uniform(NumberNames(s, names[..m], first)) {
      NoNamesFound(s, names[..m], first);
    }
  }

  // ---- names within a text ------------------------------------------------------------------------

  datatype Piece = Plain(s: string) | Word(s: string)

  /** Words are apart from each other. */
  predicate WellFormed(ps: seq<Piece>) {
    ps == [] || (
      && (ps[0].Plain? ==> Letterless(ps[0].s))
      && (ps[0].Word? ==> Uniform(ps[0].s) && (|ps| == 1 || (ps[1].Plain? && ps[1].s != "")))
      && WellFormed(ps[1..]))
  }

  function Text(ps: seq<Piece>): string {
    if ps == [] then "" else ps[0].s + Text(ps[1..])
  }

  function ReplacedIn(p: Piece, name: string, put: string): Piece
    requires name != ""
  {
    if p.Plain? then p else Word(ReplaceName(p.s, name, put))
  }

  function Replaced(ps: seq<Piece>, name: string, put: string): seq<Piece>
    requires name != ""
  {
    if ps == [] then [] else [ReplacedIn(ps[0], name, put)] + Replaced(ps[1..], name, put)
  }

  lemma OtherStart(s: string, name: string)
    requires IsName(name) && s != "" && !IsLetter(s[0])
    ensures !StartsWithName(s, name)
  {
    assert Lower(s[0]) != name[0];
  }

  lemma {:induction false} ReplacePlain(x: string, y: string, name: string, put: string)
    requires IsName(name) && Letterless(x)
    ensures ReplaceName(x + y, name, put) == x + ReplaceName(y, name, put)
  {
    if x == "" {
      assert x + y == y;
    } else {
      assert (x + y)[1..] == x[1..] + y && !IsLetter(x[0]);
      OtherStart(x + y, name);
      ReplacePlain(x[1..], y, name, put);
      assert x == [x[0]] + x[1..];
    }
  }

  lemma StartsWithin(x: string, y: string, name: string)
    requires IsName(name) && (y != "" ==> !IsLetter(y[0]))
    ensures StartsWithName(x + y, name) <==> StartsWithName(x, name)
  {
    if |x| < |name| <= |x + y| {
      assert (x + y)[|x|] == y[0];
      assert Lower((x + y)[|x|]) != name[|x|];
    }
  }

  lemma {:induction false} ReplaceWord(x: string, y: string, name: string, put: string)
    requires IsName(name) && AllLetters(x) && (y != "" ==> !IsLetter(y[0]))
    ensures ReplaceName(x + y, name, put) == ReplaceName(x, name, put) + ReplaceName(y, name, put)
    decreases |x|
  {
    if x == "" {
      assert x + y == y;
    } else {
      StartsWithin(x, y, name);
      var r := ReplaceName(y, name, put);
      if StartsWithName(x, name) {
        var rest := x[|name|..];
        assert (x + y)[|name|..] == rest + y;
        ReplaceWord(rest, y, name, put);
        Regroup(put, ReplaceName(rest, name, put), r);
      } else {
        var rest := x[1..];
        assert (x + y)[1..] == rest + y;
        ReplaceWord(rest, y, name, put);
        Regroup([x[0]], ReplaceName(rest, name, put), r);
      }
    }
  }

  lemma ReplaceUniform(x: string, y: string, name: string, put: string)
    requires IsName(name) && Uniform(x) && (y != "" ==> !IsLetter(y[0]))
    ensures ReplaceName(x + y, name, put) == ReplaceName(x, name, put) + ReplaceName(y, name, put)
  {
    if Letterless(x) {
      ReplacePlain(x, y, name, put);
      NoNameFound(x, name, put);
    } else {
      ReplaceWord(x, y, name, put);
    }
  }

  /** Replacing a name in a text replaces it in each word. */
  lemma {:induction false} ReplaceInPieces(ps: seq<Piece>, name: string, put: string)
    requires IsName(name) && WellFormed(ps)
    ensures ReplaceName(Text(ps), name, put) == Text(Replaced(ps, name, put))
  {
    if ps != [] {
      ReplaceInPieces(ps[1..], name, put);
      var rest := Text(ps[1..]);
      if ps[0].Plain? {
        ReplacePlain(ps[0].s, rest, name, put);
      } else {
        if |ps| > 1 {
          assert rest == ps[1].s + Text(ps[1..][1..]);
          assert Letterless(ps[1..][0].s) && rest[0] == ps[1].s[0];
        }
        ReplaceUniform(ps[0].s, rest, name, put);
      }
    }
  }

  function NumberedIn(p: Piece, names: seq<string>, first: nat): Piece
    requires Names(names)
  {
    if p.Plain? then p else Word(NumberNames(p.s, names, first))
  }

  function Numbered(ps: seq<Piece>, names: seq<string>, first: nat): (r: seq<Piece>)
    requires Names(names)
    ensures |r| == |ps| && forall i :: 0 <= i < |r| ==> r[i] == NumberedIn(ps[i], names, first)
  {
    if ps == [] then [] else [NumberedIn(ps[0], names, first)] + Numbered(ps[1..], names, first)
  }

  ghost predicate AllSteady(ps: seq<Piece>, names: seq<string>, first: nat)
    requires Names(names)
  {
    forall i :: 0 <= i < |ps| && ps[i].Word? ==> Steady(ps[i].s, names, first)
  }

  lemma {:induction false} NumberedWellFormed(ps: seq<Piece>, names: seq<string>, first: nat)
    requires Names(names) && WellFormed(ps)
    requires forall i :: 0 <= i < |ps| && ps[i].Word? ==> Uniform(NumberNames(ps[i].s, names, first))
    ensures WellFormed(Numbered(ps, names, first))
  {
    if ps != [] {
      assert forall i :: 0 <= i < |ps[1..]| ==> ps[1..][i] == ps[i + 1];
      NumberedWellFormed(ps[1..], names, first);
    }
  }

  lemma {:induction false} NumberedOneMore(ps: seq<Piece>, names: seq<string>, k: nat, first: nat)
    requires Names(names) && k < |names|
    ensures Names(names[..k]) && Names(names[..k + 1])
    ensures Replaced(Numbered(ps, names[..k], first), names[k], ToString(first + k))
            == Numbered(ps, names[..k + 1], first)
  {
    if ps != [] {
      assert names[..k + 1][..k] == names[..k];
      NumberedOneMore(ps[1..], names, k, first);
    } else {
      assert Numbered(ps, names[..k], first) == [];
    }
  }

  predicate LetterNames(names: seq<string>) { forall i :: 0 <= i < |names| ==> IsName(names[i]) }

  /** Replacing the names of a list replaces them in each word. */
  lemma {:induction false} NumberPieces(ps: seq<Piece>, names: seq<string>, first: nat, k: nat)
    requires Names(names) && LetterNames(names) && k <= |names| && WellFormed(ps) && AllSteady(ps, names, first)
    ensures NumberNames(Text(ps), names[..k], first) == Text(Numbered(ps, names[..k], first))
    ensures WellFormed(Numbered(ps, names[..k], first))
  {
    assert forall i :: 0 <= i < |ps| && ps[i].Word? ==> Uniform(NumberNames(ps[i].s, names[..k], first));
    NumberedWellFormed(ps, names[..k], first);
    if k == 0 {
      assert Numbered(ps, names[..0], first) == ps;
    } else {
      NumberPieces(ps, names, first, k - 1);
      assert names[..k][..k - 1] == names[..k - 1];
      ReplaceInPieces(Numbered(ps, names[..k - 1], first), names[k - 1], ToString(first + (k - 1)));
      NumberedOneMore(ps, names, k - 1, first);
    }
  }

  // ---- months -------------------------------------------------------------------------------------

  lemma MonthLists(k: nat)
    requires k < 12
    ensures |MONTHS| == |SHORT_MONTHS| == 12
    ensures MONTHS[k] == MonthName(k + 1) && SHORT_MONTHS[k] == MonthName(k + 1)[..3]
    ensures IsName(MONTHS[k]) && IsName(SHORT_MONTHS[k]) && |MONTHS[k]| >= 3 && (|MONTHS[k]| == 3 <==> k == 4)
  {
    assert k == 0 || k == 1 || k == 2 || k == 3 || k == 4 || k == 5 || k == 6 || k == 7 || k == 8 || k == 9 || k == 10
           || k == 11;
  }

  lemma MonthsApart(i: nat, j: nat, p: nat)
    requires j < i < 12 && p + |MONTHS[j]| <= |MONTHS[i]|
    ensures |MONTHS[j]| >= 3
    ensures MONTHS[i][p] != MONTHS[j][0] || MONTHS[i][p + 1] != MONTHS[j][1] || MONTHS[i][p + 2] != MONTHS[j][2]
  {
    assert forall k :: 0 <= k < 12 ==> |MONTHS[k]| >= 3;
    assert j == 0 || j == 1 || j == 2 || j == 3 || j == 4 || j == 5 || j == 6 || j == 7 || j == 8 || j == 9 || j == 10;
    assert p == 0 || p == 1 || p == 2 || p == 3 || p == 4 || p == 5 || p == 6;
  }

  lemma NoEarlierMonth(s: string, i: nat)
    requires i < 12 && Reads(s, MONTHS[i])
    ensures NoneOf(s, MONTHS, i)
  {
    forall j, p | 0 <= j < i && 0 <= p && p + |MONTHS[j]| <= |s| ensures !StartsWithName(s[p..], MONTHS[j]) {
      MonthsApart(i, j, p);
      assert s[p..][0] == s[p] && s[p..][1] == s[p + 1] && s[p..][2] == s[p + 2];
    }
  }

  lemma OtherName(s: string, name: string, other: string)
    requires |name| == |other| && name != other && Reads(s, other)
    ensures !StartsWithName(s, name)
  {
    var k :| 0 <= k < |name| && name[k] != other[k];
    assert Lower(s[k]) == other[k];
  }

  lemma ShortMonthsApart(i: nat, j: nat)
    requires j < i < 12
    ensures SHORT_MONTHS[i] != SHORT_MONTHS[j] && |SHORT_MONTHS[i]| == |SHORT_MONTHS[j]| == 3
  {
    assert forall k :: 0 <= k < 12 ==> |SHORT_MONTHS[k]| == 3;
    assert j == 0 || j == 1 || j == 2 || j == 3 || j == 4 || j == 5 || j == 6 || j == 7 || j == 8 || j == 9 || j == 10;
  }

  lemma NoEarlierShortMonth(s: string, i: nat)
    requires i < 12 && Reads(s, SHORT_MONTHS[i])
    ensures NoneOf(s, SHORT_MONTHS, i)
  {
    forall j, p | 0 <= j < i && 0 <= p && p + |SHORT_MONTHS[j]| <= |s|
      ensures !StartsWithName(s[p..], SHORT_MONTHS[j])
    {
      ShortMonthsApart(i, j);
      assert p == 0 && s[0..] == s;
      OtherName(s, SHORT_MONTHS[j], SHORT_MONTHS[i]);
    }
  }

  /** No long name is in a text of three letters, but "may". */
  lemma NoLongMonth(s: string, k: nat)
    requires |s| == 3 && k <= 12 && (Reads(s, "may") ==> k <= 4)
    ensures NoneOf(s, MONTHS, k)
  {
    forall j, p | 0 <= j < k && 0 <= p && p + |MONTHS[j]| <= |s| ensures !StartsWithName(s[p..], MONTHS[j]) {
      MonthLists(j);
      assert j == 4 && p == 0 && s[0..] == s;
    }
  }

  lemma SpelledLetters(s: string, name: string)
    requires IsName(name) && Reads(s, name)
    ensures AllLetters(s)
  {
    forall i | 0 <= i < |s| ensures IsLetter(s[i]) { assert 'a' <= name[i] <= 'z'; }
  }

  lemma GoesFirst(s: string, names: seq<string>, k: nat, first: nat)
    requires Names(names) && k < |names| && IsName(names[k]) && NoneOf(s, names, k) && Reads(s, names[k])
    ensures AllLetters(s) && Steady(s, names, first) && NumberNames(s, names, first) == ToString(first + k)
  {
    SpelledLetters(s, names[k]);
    FoundIsSteady(s, names, k, first);
    FoundOnce(s, names, k, first, |names|);
    assert names[..|names|] == names;
  }

  lemma GoesThrough(s: string, names: seq<string>, first: nat)
    requires Names(names) && Uniform(s) && NoneOf(s, names, |names|)
    ensures Steady(s, names, first) && NumberNames(s, names, first) == s
  {
    NoneIsSteady(s, names, first);
    NoneFound(s, names, |names|, first);
    assert names[..|names|] == names;
  }

  lemma GoesAsNumber(n: nat, names: seq<string>, first: nat)
    requires Names(names)
    ensures Steady(ToString(n), names, first) && NumberNames(ToString(n), names, first) == ToString(n)
  {
    DigitsLetterless(n);
    LetterlessIsSteady(ToString(n), names, first);
    NoNamesFound(ToString(n), names, first);
  }

  lemma LongMonthFirst(s: string, k: nat)
    requires k < 12 && Reads(s, MONTHS[k])
    ensures AllLetters(s) && Steady(s, MONTHS, 1) && NumberNames(s, MONTHS, 1) == ToString(1 + k)
  {
    MonthLists(k);
    NoEarlierMonth(s, k);
    GoesFirst(s, MONTHS, k, 1);
  }

  lemma ShortMonthThrough(s: string, k: nat)
    requires k < 12 && Reads(s, SHORT_MONTHS[k]) && !Reads(s, MONTHS[k])
    ensures AllLetters(s) && Steady(s, MONTHS, 1) && NumberNames(s, MONTHS, 1) == s
  {
    MonthLists(k);
    SpelledLetters(s, SHORT_MONTHS[k]);
    if Reads(s, "may") { MayIsFifth(s, k + 1); }
    NoLongMonth(s, 12);
    GoesThrough(s, MONTHS, 1);
  }

  /** How a month's name goes through the first list. */
  lemma FirstList(s: string, n: nat)
    requires MeansMonth(s, n)
    ensures AllLetters(s) && Steady(s, MONTHS, 1)
    ensures
      var r := NumberNames(s, MONTHS, 1);
      if Reads(s, MonthName(n)) then r == ToString(n) else r == s
  {
    MonthLists(n - 1);
    SpelledIsRead(s, MonthName(n));
    SpelledIsRead(s, MonthName(n)[..3]);
    if Reads(s, MonthName(n)) { LongMonthFirst(s, n - 1); } else { ShortMonthThrough(s, n - 1); }
  }

  lemma MayIsFifth(s: string, n: nat)
    requires 1 <= n <= 12 && Reads(s, "may") && Reads(s, MonthName(n)[..3])
    ensures Reads(s, MonthName(n))
  {
    MonthLists(n - 1);
    assert Lower(s[0]) == 'm' && Lower(s[1]) == 'a' && Lower(s[2]) == 'y';
    assert MonthName(n)[..3][0] == 'm' && MonthName(n)[..3][2] == 'y';
  }

  lemma ShortMonthSecond(s: string, k: nat)
    requires k < 12 && Reads(s, SHORT_MONTHS[k])
    ensures Steady(s, SHORT_MONTHS, 1) && NumberNames(s, SHORT_MONTHS, 1) == ToString(1 + k)
  {
    MonthLists(k);
    NoEarlierShortMonth(s, k);
    GoesFirst(s, SHORT_MONTHS, k, 1);
  }

  lemma SecondList(s: string, n: nat)
    requires MeansMonth(s, n)
    ensures Steady(NumberNames(s, MONTHS, 1), SHORT_MONTHS, 1)
    ensures NumberNames(NumberNames(s, MONTHS, 1), SHORT_MONTHS, 1) == ToString(n)
  {
    FirstList(s, n);
    MonthLists(n - 1);
    SpelledIsRead(s, MonthName(n));
    SpelledIsRead(s, MonthName(n)[..3]);
    if Reads(s, MonthName(n)) { GoesAsNumber(n, SHORT_MONTHS, 1); } else { ShortMonthSecond(s, n - 1); }
  }

  // ---- weekdays -----------------------------------------------------------------------------------

  lemma WeekdayLists(k: nat)
    requires k < 7
    ensures |WEEKDAYS| == |SHORT_WEEKDAYS| == 7
    ensures WEEKDAYS[k] == WeekdayName(k) && SHORT_WEEKDAYS[k] == WeekdayName(k)[..3]
    ensures IsName(WEEKDAYS[k]) && IsName(SHORT_WEEKDAYS[k]) && |WEEKDAYS[k]| > 3
  {
    assert k == 0 || k == 1 || k == 2 || k == 3 || k == 4 || k == 5 || k == 6;
  }

  lemma WeekdaysApart(i: nat, j: nat, p: nat)
    requires j < i < 7 && p + |WEEKDAYS[j]| <= |WEEKDAYS[i]|
    ensures |WEEKDAYS[j]| >= 3
    ensures WEEKDAYS[i][p] != WEEKDAYS[j][0] || WEEKDAYS[i][p + 1] != WEEKDAYS[j][1]
            || WEEKDAYS[i][p + 2] != WEEKDAYS[j][2]
  {
    assert forall k :: 0 <= k < 7 ==> |WEEKDAYS[k]| >= 6;
    assert j == 0 || j == 1 || j == 2 || j == 3 || j == 4 || j == 5;
    assert p == 0 || p == 1 || p == 2 || p == 3;
  }

  lemma NoEarlierWeekday(s: string, i: nat)
    requires i < 7 && Reads(s, WEEKDAYS[i])
    ensures NoneOf(s, WEEKDAYS, i)
  {
    forall j, p | 0 <= j < i && 0 <= p && p + |WEEKDAYS[j]| <= |s| ensures !StartsWithName(s[p..], WEEKDAYS[j]) {
      WeekdaysApart(i, j, p);
      assert s[p..][0] == s[p] && s[p..][1] == s[p + 1] && s[p..][2] == s[p + 2];
    }
  }

  lemma ShortWeekdaysApart(i: nat, j: nat)
    requires j < i < 7
    ensures SHORT_WEEKDAYS[i] != SHORT_WEEKDAYS[j] && |SHORT_WEEKDAYS[i]| == |SHORT_WEEKDAYS[j]| == 3
  {
    assert forall k :: 0 <= k < 7 ==> |SHORT_WEEKDAYS[k]| == 3;
    assert j == 0 || j == 1 || j == 2 || j == 3 || j == 4 || j == 5;
  }

  lemma NoEarlierShortWeekday(s: string, i: nat)
    requires i < 7 && Reads(s, SHORT_WEEKDAYS[i])
    ensures NoneOf(s, SHORT_WEEKDAYS, i)
  {
    forall j, p | 0 <= j < i && 0 <= p && p + |SHORT_WEEKDAYS[j]| <= |s|
      ensures !StartsWithName(s[p..], SHORT_WEEKDAYS[j])
    {
      ShortWeekdaysApart(i, j);
      assert p == 0 && s[0..] == s;
      OtherName(s, SHORT_WEEKDAYS[j], SHORT_WEEKDAYS[i]);
    }
  }

  lemma NoLongWeekday(s: string)
    requires |s| == 3
    ensures NoneOf(s, WEEKDAYS, 7)
  {
    forall j | 0 <= j < 7 ensures Absent(s, WEEKDAYS[j]) { WeekdayLists(j); }
  }

  lemma LongWeekdayFirst(s: string, k: nat)
    requires k < 7 && Reads(s, WEEKDAYS[k])
    ensures AllLetters(s) && Steady(s, WEEKDAYS, 0) && NumberNames(s, WEEKDAYS, 0) == ToString(0 + k)
  {
    WeekdayLists(k);
    NoEarlierWeekday(s, k);
    GoesFirst(s, WEEKDAYS, k, 0);
  }

  lemma ShortWeekdayThrough(s: string, k: nat)
    requires k < 7 && Reads(s, SHORT_WEEKDAYS[k])
    ensures AllLetters(s) && Steady(s, WEEKDAYS, 0) && NumberNames(s, WEEKDAYS, 0) == s
  {
    WeekdayLists(k);
    SpelledLetters(s, SHORT_WEEKDAYS[k]);
    NoLongWeekday(s);
    GoesThrough(s, WEEKDAYS, 0);
  }

  lemma FirstWeekdayList(s: string, n: nat)
    requires MeansWeekday(s, n)
    ensures AllLetters(s) && Steady(s, WEEKDAYS, 0)
    ensures
      var r := NumberNames(s, WEEKDAYS, 0);
      if Reads(s, WeekdayName(n)) then r == ToString(n) else r == s
  {
    WeekdayLists(n);
    SpelledIsRead(s, WeekdayName(n));
    SpelledIsRead(s, WeekdayName(n)[..3]);
    if Reads(s, WeekdayName(n)) { LongWeekdayFirst(s, n); } else { ShortWeekdayThrough(s, n); }
  }

  lemma ShortWeekdaySecond(s: string, k: nat)
    requires k < 7 && Reads(s, SHORT_WEEKDAYS[k])
    ensures Steady(s, SHORT_WEEKDAYS, 0) && NumberNames(s, SHORT_WEEKDAYS, 0) == ToString(0 + k)
  {
    WeekdayLists(k);
    NoEarlierShortWeekday(s, k);
    GoesFirst(s, SHORT_WEEKDAYS, k, 0);
  }

  lemma SecondWeekdayList(s: string, n: nat)
    requires MeansWeekday(s, n)
    ensures Steady(NumberNames(s, WEEKDAYS, 0), SHORT_WEEKDAYS, 0)
    ensures NumberNames(NumberNames(s, WEEKDAYS, 0), SHORT_WEEKDAYS, 0) == ToString(n)
  {
    FirstWeekdayList(s, n);
    WeekdayLists(n);
    SpelledIsRead(s, WeekdayName(n));
    SpelledIsRead(s, WeekdayName(n)[..3]);
    if Reads(s, WeekdayName(n)) { GoesAsNumber(n, SHORT_WEEKDAYS, 0); } else { ShortWeekdaySecond(s, n); }
  }

  // ---- a field with names -------------------------------------------------------------------------

  /** A piece of a field: text without letters, or a name and the number it stands for. */
  datatype Part = Symbols(s: string) | Name(s: string, n: nat)

  function PieceOf(p: Part): Piece { if p.Symbols? then Plain(p.s) else Word(p.s) }

  function Pieces(ps: seq<Part>): (r: seq<Piece>)
    ensures |r| == |ps| && forall i :: 0 <= i < |r| ==> r[i] == PieceOf(ps[i])
  {
    if ps == [] then [] else [PieceOf(ps[0])] + Pieces(ps[1..])
  }

  /** Names of months, or of weekdays, apart from each other. */
  predicate Named(ps: seq<Part>, months: bool) {
    ps == [] || (
      && (if ps[0].Symbols? then Letterless(ps[0].s)
          else (if months then MeansMonth(ps[0].s, ps[0].n) else MeansWeekday(ps[0].s, ps[0].n))
               && (|ps| == 1 || (ps[1].Symbols? && ps[1].s != "")))
      && Named(ps[1..], months))
  }

  /** The field as it is written. */
  function WrittenText(ps: seq<Part>): string {
    if ps == [] then "" else ps[0].s + WrittenText(ps[1..])
  }

  /** The field with numbers for names. */
  function NumberText(ps: seq<Part>): string {
    if ps == [] then "" else (if ps[0].Symbols? then ps[0].s else ToString(ps[0].n)) + NumberText(ps[1..])
  }

  lemma {:induction false} PiecesAreText(ps: seq<Part>)
    ensures Text(Pieces(ps)) == WrittenText(ps)
  {
    if ps != [] { PiecesAreText(ps[1..]); }
  }

  lemma {:induction false} NamedMonth(ps: seq<Part>, i: nat)
    requires Named(ps, true) && i < |ps| && ps[i].Name?
    ensures MeansMonth(ps[i].s, ps[i].n)
  {
    if i > 0 { NamedMonth(ps[1..], i - 1); }
  }

  lemma {:induction false} NamedWeekday(ps: seq<Part>, i: nat)
    requires Named(ps, false) && i < |ps| && ps[i].Name?
    ensures MeansWeekday(ps[i].s, ps[i].n)
  {
    if i > 0 { NamedWeekday(ps[1..], i - 1); }
  }

  lemma {:induction false} PiecesWellFormed(ps: seq<Part>, months: bool)
    requires Named(ps, months)
    ensures WellFormed(Pieces(ps))
  {
    if ps != [] {
      PiecesWellFormed(ps[1..], months);
      if ps[0].Name? {
        if months { FirstList(ps[0].s, ps[0].n); } else { FirstWeekdayList(ps[0].s, ps[0].n); }
      }
    }
  }

  /** Both lists, one after the other, over the pieces. */
  lemma TwoLists(ps: seq<Piece>, names: seq<string>, shorts: seq<string>, first: nat)
    requires Names(names) && Names(shorts) && LetterNames(names) && LetterNames(shorts)
    requires WellFormed(ps) && AllSteady(ps, names, first) && AllSteady(Numbered(ps, names, first), shorts, first)
    ensures NumberNames(NumberNames(Text(ps), names, first), shorts, first)
            == Text(Numbered(Numbered(ps, names, first), shorts, first))
  {
    assert names[..|names|] == names && shorts[..|shorts|] == shorts;
    NumberPieces(ps, names, first, |names|);
    NumberPieces(Numbered(ps, names, first), shorts, first, |shorts|);
  }

  lemma {:induction false} AllNumbers(ps: seq<Part>, rs: seq<Piece>)
    requires |rs| == |ps|
    requires forall i :: 0 <= i < |ps| ==> rs[i].s == if ps[i].Symbols? then ps[i].s else ToString(ps[i].n)
    ensures Text(rs) == NumberText(ps)
  {
    if ps != [] { AllNumbers(ps[1..], rs[1..]); }
  }

  /** MONTHS: a field with names of months is read as the field with their numbers. */
  lemma {:induction false} MonthsAreNumbers(ps: seq<Part>)
    requires Named(ps, true)
    ensures MonthNumbers(WrittenText(ps)) == NumberText(ps)
  {
    NamesAreNames();
    var pieces := Pieces(ps);
    var once := Numbered(pieces, MONTHS, 1);
    var twice := Numbered(once, SHORT_MONTHS, 1);
    forall k | 0 <= k < 12 ensures IsName(MONTHS[k]) && IsName(SHORT_MONTHS[k]) { MonthLists(k); }
    forall i | 0 <= i < |ps|
      ensures pieces[i].Word? ==> Steady(pieces[i].s, MONTHS, 1) && Steady(once[i].s, SHORT_MONTHS, 1)
      ensures twice[i].s == if ps[i].Symbols? then ps[i].s else ToString(ps[i].n)
    {
      if ps[i].Name? {
        NamedMonth(ps, i);
        FirstList(ps[i].s, ps[i].n);
        SecondList(ps[i].s, ps[i].n);
      }
    }
    PiecesWellFormed(ps, true);
    TwoLists(pieces, MONTHS, SHORT_MONTHS, 1);
    PiecesAreText(ps);
    AllNumbers(ps, twice);
  }

  /** The field with its first 7 a 0; names have none. */
  function SevenParts(ps: seq<Part>): seq<Part> {
    if ps == [] then []
    else if ps[0].Symbols? && '7' in ps[0].s then [Symbols(ReplaceFirst(ps[0].s, '7', "0"))] + ps[1..]
    else [ps[0]] + SevenParts(ps[1..])
  }

  lemma {:induction false} StillLetterless(s: string)
    requires Letterless(s)
    ensures Letterless(ReplaceFirst(s, '7', "0")) && |ReplaceFirst(s, '7', "0")| == |s|
  {
    if s != "" && s[0] != '7' { StillLetterless(s[1..]); }
  }

  lemma SmallNumber(n: nat)
    requires n <= 6
    ensures '7' !in ToString(n)
  {
    assert ToString(n) == [DigitChar(n)];
  }

  lemma NoSevenInName(s: string, n: nat)
    requires MeansWeekday(s, n)
    ensures '7' !in s && '7' !in ToString(n)
  {
    FirstWeekdayList(s, n);
    SmallNumber(n);
    assert !IsLetter('7');
  }

  lemma {:induction false} SevenInTexts(ps: seq<Part>)
    requires Named(ps, false)
    ensures WrittenText(SevenParts(ps)) == ReplaceFirst(WrittenText(ps), '7', "0")
    ensures NumberText(SevenParts(ps)) == ReplaceFirst(NumberText(ps), '7', "0")
  {
    if ps != [] {
      var p, rest := ps[0], ps[1..];
      ReplaceFirstAcross(p.s, WrittenText(rest), '7', "0");
      ReplaceFirstAcross(if p.Symbols? then p.s else ToString(p.n), NumberText(rest), '7', "0");
      if p.Symbols? && '7' in p.s {
        assert SevenParts(ps)[1..] == rest;
      } else {
        SevenInTexts(rest);
        assert SevenParts(ps)[1..] == SevenParts(rest);
        if p.Name? { NoSevenInName(p.s, p.n); }
      }
    }
  }

  lemma {:induction false} SevenStaysNamed(ps: seq<Part>)
    requires Named(ps, false)
    ensures Named(SevenParts(ps), false)
  {
    if ps != [] {
      var p, rest := ps[0], ps[1..];
      if p.Symbols? && '7' in p.s {
        StillLetterless(p.s);
        assert SevenParts(ps)[1..] == rest;
      } else {
        SevenStaysNamed(rest);
        assert SevenParts(ps)[1..] == SevenParts(rest);
        if p.Name? && rest != [] { StillLetterless(rest[0].s); }
      }
    }
  }

  lemma {:induction false} WeekdayNames(ps: seq<Part>)
    requires Named(ps, false)
    ensures Names(WEEKDAYS) && Names(SHORT_WEEKDAYS)
    ensures NumberNames(NumberNames(WrittenText(ps), WEEKDAYS, 0), SHORT_WEEKDAYS, 0) == NumberText(ps)
  {
    NamesAreNames();
    var pieces := Pieces(ps);
    var once := Numbered(pieces, WEEKDAYS, 0);
    var twice := Numbered(once, SHORT_WEEKDAYS, 0);
    forall k | 0 <= k < 7 ensures IsName(WEEKDAYS[k]) && IsName(SHORT_WEEKDAYS[k]) { WeekdayLists(k); }
    forall i | 0 <= i < |ps|
      ensures pieces[i].Word? ==> Steady(pieces[i].s, WEEKDAYS, 0) && Steady(once[i].s, SHORT_WEEKDAYS, 0)
      ensures twice[i].s == if ps[i].Symbols? then ps[i].s else ToString(ps[i].n)
    {
      if ps[i].Name? {
        NamedWeekday(ps, i);
        FirstWeekdayList(ps[i].s, ps[i].n);
        SecondWeekdayList(ps[i].s, ps[i].n);
      }
    }
    PiecesWellFormed(ps, false);
    TwoLists(pieces, WEEKDAYS, SHORT_WEEKDAYS, 0);
    PiecesAreText(ps);
    AllNumbers(ps, twice);
  }

  /** WEEKDAYS: a field with names of weekdays is read as the field with their numbers, its first 7 a 0. */
  lemma {:induction false} WeekdaysAreNumbers(ps: seq<Part>)
    requires Named(ps, false)
    ensures WeekdayNumbers(WrittenText(ps)) == ReplaceFirst(NumberText(ps), '7', "0")
  {
    SevenInTexts(ps);
    SevenStaysNamed(ps);
    WeekdayNames(SevenParts(ps));
  }

  /** NAMES MEAN THEIR NUMBERS: a month or weekday field of the grammar with names written for some of its numbers is
      compiled to the same text as the field itself. */
  lemma {:induction false} NamesCompileAlike(ps: seq<Part>, f: Field, months: bool)
    requires Named(ps, months) && NumberText(ps) == Print(f)
    ensures
      var i := if months then 4 else 5;
      CompileField(i, WrittenText(ps)) == CompileField(i, Print(f))
  {
    if months {
      MonthsAreNumbers(ps);
      MonthText(f);
    } else {
      WeekdaysAreNumbers(ps);
      PrintLetterless(f);
      StillLetterless(Print(f));
      NamesAreNames();
      NoNamesFound(ReplaceFirst(Print(f), '7', "0"), WEEKDAYS, 0);
      NoNamesFound(ReplaceFirst(Print(f), '7', "0"), SHORT_WEEKDAYS, 0);
    }
  }
}
