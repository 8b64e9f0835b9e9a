/** The matcher for a whole crontab, and the search for the next time it matches. */
module TimeMatchers {
  import opened Options
  import opened Decimals
  import opened Crontab
  import opened CronMeaning
  import opened CronCorrectness
  import opened CronWeekdays

  /** A date taken apart in the time zone of the schedule; months and weekdays count from 0. */
  datatype Moment = Moment(second: nat, minute: nat, hour: nat, day: nat, month: nat, weekday: nat)

  const BOUNDS := [Bounds(0, 59), Bounds(0, 59), Bounds(0, 23), Bounds(1, 31), Bounds(1, 12), Bounds(0, 6)]

  /** What validation allows; a weekday may be 7. */
  const LIMITS := [(0, 59), (0, 59), (0, 23), (1, 31), (1, 12), (0, 7)]

  predicate Runs(expressions: seq<string>, m: Moment)
    requires |expressions| >= 6
  {
    && MatchPattern(expressions[0], m.second)
    && MatchPattern(expressions[1], m.minute)
    && MatchPattern(expressions[2], m.hour)
    && MatchPattern(expressions[3], m.day)
    && MatchPattern(expressions[4], m.month + 1)
    && MatchPattern(expressions[5], m.weekday)
  }

  lemma OneDecimal(n: nat)
    requires n < 100
    ensures ToString(n) == if n < 10 then [DigitChar(n)] else [DigitChar(n / 10), DigitChar(n % 10)]
  {
  }

  /** The ranges written into the compiler are those of the fields. */
  lemma StarTexts()
    ensures |STARS| == |BOUNDS| == |LIMITS| == 6
    ensures forall i :: 0 <= i < 6 ==> STARS[i] == StarText(BOUNDS[i]) && BOUNDS[i].lo <= BOUNDS[i].hi
  {
    OneDecimal(0);
    OneDecimal(59);
    OneDecimal(23);
    OneDecimal(1);
    OneDecimal(31);
    OneDecimal(12);
    OneDecimal(6);
    assert StarText(BOUNDS[0]) == "0-59";
    assert StarText(BOUNDS[2]) == "0-23";
    assert StarText(BOUNDS[3]) == "1-31";
    assert StarText(BOUNDS[4]) == "1-12";
    assert StarText(BOUNDS[5]) == "0-6";
  }

  /** `expressions` are the compiled texts of six fields. */
  predicate CompiledFrom(expressions: seq<string>, fields: seq<Field>)
    requires |expressions| >= 6 && |fields| == 6
  {
    forall i :: 0 <= i < 6 ==> Some(expressions[i]) == CompileField(i, Print(fields[i]))
  }

  /** The first five fields denote the parts of the moment they are about. */
  predicate InTime(fields: seq<Field>, m: Moment)
    requires |fields| == 6
  {
    && Denotes(fields[0], BOUNDS[0], m.second)
    && Denotes(fields[1], BOUNDS[1], m.minute)
    && Denotes(fields[2], BOUNDS[2], m.hour)
    && Denotes(fields[3], BOUNDS[3], m.day)
    && Denotes(fields[4], BOUNDS[4], m.month + 1)
  }

  /** Each field denotes the part of the moment it is about, the weekday by what becomes of its first 7. */
  predicate Scheduled(fields: seq<Field>, m: Moment)
    requires |fields| == 6
  {
    InTime(fields, m) && Denotes(Rewrite(fields[5]), WEEK, m.weekday)
  }

  /** Each field means the part of the moment it is about, Sunday being 0 and 7. */
  predicate Meant(fields: seq<Field>, m: Moment)
    requires |fields| == 6
  {
    InTime(fields, m) && DayMeant(fields[5], m.weekday)
  }

  /** The matcher accepts exactly what the field denotes. */
  ghost predicate Agrees(expression: string, field: Field, bounds: Bounds) {
    forall v: nat :: MatchPattern(expression, v) <==> Denotes(field, bounds, v)
  }

  function AsRead(i: nat, field: Field): Field { if i == 5 then Rewrite(field) else field }

  lemma FieldAgrees(field: Field, expression: string, i: nat)
    requires i < 6 && field.items != [] && Some(expression) == CompileField(i, Print(field))
    ensures Agrees(expression, AsRead(i, field), BOUNDS[i])
  {
    StarTexts();
    MonthText(field);
    forall v: nat ensures MatchPattern(expression, v) <==> Denotes(AsRead(i, field), BOUNDS[i], v) {
      if i == 5 {
        WeekdayMatches(field, v);
      } else {
        MatchesExactlyDenoted(field, BOUNDS[i], v);
      }
    }
  }

  lemma AgreementRuns(fields: seq<Field>, expressions: seq<string>, m: Moment)
    requires |expressions| >= 6 && |fields| == 6
    requires forall i :: 0 <= i < 6 ==> Agrees(expressions[i], AsRead(i, fields[i]), BOUNDS[i])
    ensures Runs(expressions, m) <==> Scheduled(fields, m)
  {
    assert Agrees(expressions[0], fields[0], BOUNDS[0]) by { assert AsRead(0, fields[0]) == fields[0]; }
    assert Agrees(expressions[1], fields[1], BOUNDS[1]) by { assert AsRead(1, fields[1]) == fields[1]; }
    assert Agrees(expressions[2], fields[2], BOUNDS[2]) by { assert AsRead(2, fields[2]) == fields[2]; }
    assert Agrees(expressions[3], fields[3], BOUNDS[3]) by { assert AsRead(3, fields[3]) == fields[3]; }
    assert Agrees(expressions[4], fields[4], BOUNDS[4]) by { assert AsRead(4, fields[4]) == fields[4]; }
    assert Agrees(expressions[5], Rewrite(fields[5]), WEEK) by { assert AsRead(5, fields[5]) == Rewrite(fields[5]); }
  }

  /** A schedule runs at a moment if and only if each of its six fields, the weekday with its first 7 read as 0,
      denotes the part it is about. */
  lemma {:induction false} RunsExactlyWhenDenoted(fields: seq<Field>, expressions: seq<string>, m: Moment)
    requires |expressions| >= 6 && |fields| == 6 && CompiledFrom(expressions, fields)
    requires forall i :: 0 <= i < 6 ==> fields[i].items != []
    ensures Runs(expressions, m) <==> Scheduled(fields, m)
  {
    forall i | 0 <= i < 6 ensures Agrees(expressions[i], AsRead(i, fields[i]), BOUNDS[i]) {
      FieldAgrees(fields[i], expressions[i], i);
    }
    AgreementRuns(fields, expressions, m);
  }

  /** The same moment on another day of the week. */
  function OnDay(m: Moment, d: nat): Moment { m.(weekday := d) }

  predicate RunsAsMeant(fields: seq<Field>, expressions: seq<string>, m: Moment)
    requires |expressions| >= 6 && |fields| == 6
  {
    Runs(expressions, m) <==> Meant(fields, m)
  }

  lemma DayAsMeant(fields: seq<Field>, expressions: seq<string>, m: Moment, d: nat)
    requires |expressions| >= 6 && |fields| == 6 && CompiledFrom(expressions, fields)
    requires forall i :: 0 <= i < 6 ==> fields[i].items != []
    requires InTime(fields, m)
    ensures RunsAsMeant(fields, expressions, OnDay(m, d)) <==> KeptOn(fields[5], d)
  {
    RunsExactlyWhenDenoted(fields, expressions, OnDay(m, d));
    OnDayInTime(fields, m, d);
    KeptMeans(fields[5], d);
  }

  lemma OnDayInTime(fields: seq<Field>, m: Moment, d: nat)
    requires |fields| == 6 && InTime(fields, m)
    ensures Scheduled(fields, OnDay(m, d)) <==> Denotes(Rewrite(fields[5]), WEEK, d)
    ensures Meant(fields, OnDay(m, d)) <==> DayMeant(fields[5], d)
  {
  }

  /** At a time the other five fields denote, a schedule runs on exactly the days its weekday field means if and
      only if the first 7 of that field does no harm. */
  lemma RunsAsMeantIffHarmless(fields: seq<Field>, expressions: seq<string>, m: Moment)
    requires |expressions| >= 6 && |fields| == 6 && CompiledFrom(expressions, fields)
    requires forall i :: 0 <= i < 6 ==> fields[i].items != []
    requires Weekdays(fields[5].items) && InTime(fields, m)
    ensures (forall d: nat :: d <= 6 ==> RunsAsMeant(fields, expressions, OnDay(m, d))) <==> SevenHarmless(fields[5])
  {
    WeekdaysKeptIffHarmless(fields[5]);
    forall d: nat | d <= 6 ensures RunsAsMeant(fields, expressions, OnDay(m, d)) <==> KeptOn(fields[5], d) {
      DayAsMeant(fields, expressions, m, d);
    }
  }

  /** At any other time it runs on no day, as meant. */
  lemma RunsOnlyInTime(fields: seq<Field>, expressions: seq<string>, m: Moment)
    requires |expressions| >= 6 && |fields| == 6 && CompiledFrom(expressions, fields)
    requires forall i :: 0 <= i < 6 ==> fields[i].items != []
    requires !InTime(fields, m)
    ensures !Runs(expressions, m) && !Meant(fields, m)
  {
    RunsExactlyWhenDenoted(fields, expressions, m);
  }

  /** A schedule runs as it is meant, on every day of every week, if and only if the first 7 of its weekday field does
      no harm, or its other fields denote no time at all. */
  lemma {:induction false} ScheduleAsMeantIffHarmless(fields: seq<Field>, expressions: seq<string>)
    requires |expressions| >= 6 && |fields| == 6 && CompiledFrom(expressions, fields)
    requires forall i :: 0 <= i < 6 ==> fields[i].items != []
    requires Weekdays(fields[5].items)
    ensures (forall m: Moment :: m.weekday <= 6 ==> RunsAsMeant(fields, expressions, m)) <==>
            SevenHarmless(fields[5]) || forall m: Moment :: !InTime(fields, m)
  {
    forall m: Moment | !InTime(fields, m) ensures RunsAsMeant(fields, expressions, m) {
      RunsOnlyInTime(fields, expressions, m);
    }
    forall m: Moment | InTime(fields, m)
      ensures (forall d: nat :: d <= 6 ==> RunsAsMeant(fields, expressions, OnDay(m, d))) <==> SevenHarmless(fields[5])
      ensures OnDay(m, m.weekday) == m
    {
      RunsAsMeantIffHarmless(fields, expressions, m);
    }
  }

  const SECOND := 1000

  /** `next` is what the search after `last` finds, in seconds: the first match, or the end of the search. */
  ghost predicate NextAfter(matches: int -> bool, last: int, next: int) {
    && last < next <= last + 3599
    && (matches(next) || next == last + 3599)
    && forall t :: last < t < next ==> !matches(t)
  }

  lemma NextIsUnique(matches: int -> bool, last: int, a: int, b: int)
    requires NextAfter(matches, last, a) && NextAfter(matches, last, b)
    ensures a == b
  {
    assert a < b ==> !matches(a);
    assert b < a ==> !matches(b);
  }

  /** When a compiled crontab runs, by the calendar of its time zone; times are in milliseconds. */
  function RunsAt(expressions: seq<string>, calendar: int -> Moment): int -> bool
    requires |expressions| >= 6
  {
    (date: int) => Runs(expressions, calendar(date))
  }

  /** The times whole seconds after `date`. */
  function After(runsAt: int -> bool, date: int): int -> bool {
    (k: int) => runsAt(date + k * SECOND)
  }

  class TimeMatcher {
    const expressions: seq<string>
    const runsAt: int -> bool

    constructor (expressions: seq<string>, calendar: int -> Moment)
      requires |expressions| >= 6
      ensures this.expressions == expressions && runsAt == RunsAt(expressions, calendar)
      ensures forall date :: runsAt(date) <==> Runs(expressions, calendar(date))
    {
      this.expressions := expressions;
      runsAt := RunsAt(expressions, calendar);
    }

    /** 3599 seconds are tried: the counter is decremented before its first test. */
    method NextWakeupTime(date: int) returns (next: int, ghost n: int)
      ensures next == date + n * SECOND && NextAfter(After(runsAt, date), 0, n)
      ensures date < next <= date + 3599 * 1000 && (runsAt(next) || next == date + 3599 * 1000)
      ensures forall k :: 0 < k && date + k * 1000 < next ==> !After(runsAt, date)(k)
    {
      n := 0;
      var msec := date;
      var maxIters := 3600 - 1;
      while maxIters != 0
        invariant n == 3599 - maxIters && 0 <= maxIters && msec == date + n * SECOND
        invariant forall k :: 0 < k <= n ==> !After(runsAt, date)(k)
      {
        msec := msec + SECOND;
        n := n + 1;
        if runsAt(msec) {
          return msec, n;
        }
        maxIters := maxIters - 1;
      }
      next := msec;
    }
  }

  /** A compiled field lies within the limits of its position. */
  predicate Within(i: nat, expression: string)
    requires i < |LIMITS|
  {
    IsValid(expression, LIMITS[i].0, LIMITS[i].1)
  }

  /** The validation of the six fields of a crontab, in order. */
  method ValidateFields(expressions: seq<string>) returns (ok: bool)
    requires |expressions| >= 6
    ensures ok <==> forall i :: 0 <= i < 6 ==> Within(i, expressions[i])
  {
    for i := 0 to 6
      invariant forall k :: 0 <= k < i ==> Within(k, expressions[k])
    {
      var valid := IsValidExpression(expressions[i], LIMITS[i].0, LIMITS[i].1);
      if !valid {
        return false;
      }
    }
    ok := true;
  }

  /** The field at a position is accepted, and is compiled to a text. */
  predicate Accepted(i: nat, field: string, expression: string)
    requires i < 6
  {
    Some(expression) == CompileField(i, field) && Within(i, expression)
  }

  predicate Refused(i: nat, field: string) {
    if i < 6 then CompileField(i, field).None? || !Within(i, CompileField(i, field).value)
    else ConvertStep(ConvertRanges(field)).None?
  }

  /** A number that a date has at a position, the weekday Sunday also as 7. */
  predicate OnCalendar(i: nat, v: nat) {
    match i
    case 0 => v < 60
    case 1 => v < 60
    case 2 => v < 24
    case 3 => 1 <= v <= 31
    case 4 => 1 <= v <= 12
    case _ => v <= 7
  }

  /** A field that means something, and nothing that is on no calendar, and does not repeat an asterisk. */
  ghost predicate Acceptable(i: nat, field: Field)
    requires i < 6
  {
    var f := AsRead(i, field);
    && (f.step.None? ==> Stars(f.items) <= 1)
    && (exists v: nat :: Denotes(f, BOUNDS[i], v))
    && (forall v: nat :: Denotes(f, BOUNDS[i], v) ==> OnCalendar(i, v))
  }

  lemma LimitsAreOfTheCalendar(i: nat, v: nat)
    requires i < |LIMITS|
    ensures LIMITS[i].0 <= v <= LIMITS[i].1 <==> OnCalendar(i, v)
  {
  }

  lemma DayFieldValid(i: nat, field: Field)
    requires i < 5 && field.items != []
    ensures CompileField(i, Print(field)).Some?
    ensures Within(i, CompileField(i, Print(field)).value) <==> Acceptable(i, field)
  {
    StarTexts();
    MonthText(field);
    assert CompileField(i, Print(field)) == Compile(Print(field), StarText(BOUNDS[i]));
    forall v: nat ensures LIMITS[i].0 <= v <= LIMITS[i].1 <==> OnCalendar(i, v) { LimitsAreOfTheCalendar(i, v); }
    ValidExactlyWithin(field, BOUNDS[i], LIMITS[i].0, LIMITS[i].1);
  }

  lemma WeekdayFieldValid(field: Field)
    requires field.items != []
    ensures CompileField(5, Print(field)).Some?
    ensures Within(5, CompileField(5, Print(field)).value) <==> Acceptable(5, field)
  {
    assert LIMITS[5] == (0, 7) && BOUNDS[5] == WEEK;
    forall v: nat ensures v <= 7 <==> OnCalendar(5, v) { LimitsAreOfTheCalendar(5, v); }
    WeekdayValid(field);
  }

  /** EXACTLY THE CALENDAR: a field of the grammar is accepted at its position if and only if it means something,
      nothing that is on no calendar, and does not repeat an asterisk without a step. */
  lemma {:induction false} RefusedIffUnacceptable(i: nat, field: Field)
    requires i < 6 && field.items != []
    ensures !Refused(i, Print(field)) <==> Acceptable(i, field)
  {
    if i == 5 { WeekdayFieldValid(field); } else { DayFieldValid(i, field); }
  }

  const EVERY := Field([Star], None)

  predicate IsDate(m: Moment) {
    m.second < 60 && m.minute < 60 && m.hour < 24 && 1 <= m.day <= 31 && m.month < 12 && m.weekday < 7
  }

  lemma EveryDenotes(i: nat, v: nat)
    requires i < |BOUNDS|
    ensures Print(EVERY) == "*" && Rewrite(EVERY) == EVERY && AsRead(i, EVERY) == EVERY
    ensures Denotes(EVERY, BOUNDS[i], v) <==> BOUNDS[i].lo <= v <= BOUNDS[i].hi
  {
    assert EVERY.items[0].Star?;
  }

  lemma EveryAccepted(i: nat)
    requires i < 6
    ensures !Refused(i, "*")
  {
    forall v: nat ensures Denotes(EVERY, BOUNDS[i], v) <==> BOUNDS[i].lo <= v <= BOUNDS[i].hi { EveryDenotes(i, v); }
    EveryDenotes(i, BOUNDS[i].lo);
    RefusedIffUnacceptable(i, EVERY);
  }

  lemma EveryMoment(m: Moment)
    ensures Scheduled([EVERY, EVERY, EVERY, EVERY, EVERY, EVERY], m) <==> IsDate(m)
  {
    EveryDenotes(0, m.second);
    EveryDenotes(1, m.minute);
    EveryDenotes(2, m.hour);
    EveryDenotes(3, m.day);
    EveryDenotes(4, m.month + 1);
    EveryDenotes(5, m.weekday);
  }

  /** Six asterisks are accepted, and run at all dates and at nothing else. */
  lemma {:induction false} AsterisksRunAlways(expressions: seq<string>, m: Moment)
    requires |expressions| >= 6
    requires forall i :: 0 <= i < 6 ==> Some(expressions[i]) == CompileField(i, "*")
    ensures forall i :: 0 <= i < 6 ==> !Refused(i, "*")
    ensures Runs(expressions, m) <==> IsDate(m)
  {
    forall i | 0 <= i < 6 ensures !Refused(i, "*") { EveryAccepted(i); }
    var fields := seq(6, _ => EVERY);
    assert fields == [EVERY, EVERY, EVERY, EVERY, EVERY, EVERY];
    EveryDenotes(0, 0);
    assert CompiledFrom(expressions, fields);
    RunsExactlyWhenDenoted(fields, expressions, m);
    EveryMoment(m);
  }

  /** A crontab as the constructor of a matcher accepts it: five fields get a leading zero, fewer are refused,
      all are compiled and validated. */
  method CompileCrontab(fields: seq<string>) returns (r: Option<seq<string>>)
    ensures
      var all := if |fields| == 5 then ["0"] + fields else fields;
      r.Some? ==>
        && |fields| >= 5 && |r.value| == |all|
        && forall i :: 0 <= i < 6 ==> Accepted(i, all[i], r.value[i])
    ensures
      var all := if |fields| == 5 then ["0"] + fields else fields;
      r.None? <==> |fields| < 5 || exists i :: 0 <= i < |all| && Refused(i, all[i])
  {
    var all := if |fields| == 5 then ["0"] + fields else fields;
    if |all| < 6 {
      return None;
    }
    var expressions := new string[|all|](i requires 0 <= i < |all| => all[i]);
    assert expressions[..] == all;
    var converted := ConvertFields(expressions);
    if !converted {
      assert exists i :: 0 <= i < |all| && Refused(i, all[i]);
      return None;
    }
    var ok := ValidateFields(expressions[..]);
    if !ok {
      return None;
    }
    r := Some(expressions[..]);
  }
}
