/** The weekday field: Sunday may be written 7, and the first '7' of the text, wherever it stands, is replaced
    by '0' before anything else is done. */
module CronWeekdays {
  import opened Options
  import opened Decimals
  import opened Crontab
  import opened CronMeaning
  import opened CronCorrectness

  const WEEK := Bounds(0, 6)

  // ---- the rewriting of the text, as a rewriting of the field ---------------------------------------

  function ZeroSeven(s: Numeral): (r: Numeral)
    ensures r == ReplaceFirst(s, '7', "0")
  {
    StillDigits(s);
    ReplaceFirst(s, '7', "0")
  }

  lemma {:induction false} StillDigits(s: string)
    requires AllDigits(s)
    ensures AllDigits(ReplaceFirst(s, '7', "0")) && |ReplaceFirst(s, '7', "0")| == |s|
  {
    if s != "" && s[0] != '7' { StillDigits(s[1..]); }
  }

  predicate HasSeven(item: Item) {
    match item
    case Number(s) => '7' in s
    case Range(a, b) => '7' in a || '7' in b
    case Star => false
  }

  function SevenItem(item: Item): Item {
    match item
    case Number(s) => Number(ZeroSeven(s))
    case Range(a, b) => if '7' in a then Range(ZeroSeven(a), b) else Range(a, ZeroSeven(b))
    case Star => Star
  }

  /** The position of the first item with a 7, or the length of the list. */
  function SevenAt(items: seq<Item>): (j: nat)
    ensures j <= |items|
    ensures j < |items| ==> HasSeven(items[j])
    ensures forall i :: 0 <= i < j ==> !HasSeven(items[i])
  {
    if items == [] || HasSeven(items[0]) then 0 else 1 + SevenAt(items[1..])
  }

  predicate AnySeven(items: seq<Item>) { SevenAt(items) < |items| }

  /** The first 7, whatever it stands for, becomes 0. */
  function FirstSeven(items: seq<Item>): (r: seq<Item>)
    ensures |r| == |items|
  {
    if AnySeven(items) then items[SevenAt(items) := SevenItem(items[SevenAt(items)])] else items
  }

  function StepSeven(step: Option<Numeral>): Option<Numeral> {
    match step
    case None => None
    case Some(s) => Some(ZeroSeven(s))
  }

  /** The field as the compiler reads it: a 7 of the step is reached only if the list has none. */
  function Rewrite(f: Field): Field {
    if AnySeven(f.items) then f.(items := FirstSeven(f.items)) else f.(step := StepSeven(f.step))
  }

  lemma ItemSeven(item: Item)
    ensures '7' in PrintItem(item) <==> HasSeven(item)
    ensures HasSeven(item) ==> ReplaceFirst(PrintItem(item), '7', "0") == PrintItem(SevenItem(item))
  {
    if item.Range? {
      var a, b := item.a, item.b;
      ReplaceFirstAcross(a + "-", b, '7', "0");
      ReplaceFirstAcross(a, "-", '7', "0");
    }
  }

  lemma {:induction false} NoSeven(s: string)
    requires '7' !in s
    ensures ReplaceFirst(s, '7', "0") == s
  {
    if s != "" { NoSeven(s[1..]); }
  }

  lemma {:induction false} SevenPass(items: seq<Item>, tail: string)
    requires items != []
    ensures ReplaceFirst(Emit(items, tail), '7', "0") ==
            if AnySeven(items) then Emit(FirstSeven(items), tail) else Emit(items, ReplaceFirst(tail, '7', "0"))
  {
    var item, more := items[0], items[1..];
    ItemSeven(item);
    var t := if |items| == 1 then tail else [','] + Emit(more, tail);
    ReplaceFirstAcross(PrintItem(item), t, '7', "0");
    if HasSeven(item) {
      assert FirstSeven(items)[1..] == more;
    } else if |items| > 1 {
      SevenPass(more, tail);
      assert t[1..] == Emit(more, tail);
      assert AnySeven(more) ==> FirstSeven(items)[1..] == FirstSeven(more);
    }
  }

  lemma SevenTail(step: Option<Numeral>)
    ensures ReplaceFirst(Tail(step), '7', "0") == Tail(StepSeven(step))
  {
    if step.Some? { ReplaceFirstAcross("/", step.value, '7', "0"); }
  }

  lemma {:induction false} EmitLetterless(items: seq<Item>, tail: string)
    requires Letterless(tail)
    ensures Letterless(Emit(items, tail))
  {
    if |items| > 0 {
      assert Letterless(PrintItem(items[0]));
      EmitLetterless(items[1..], tail);
    }
  }

  lemma PrintLetterless(f: Field)
    ensures Letterless(Print(f))
  {
    EmitLetterless(f.items, Tail(f.step));
  }

  lemma MonthText(f: Field)
    ensures MonthNumbers(Print(f)) == Print(f)
  {
    PrintLetterless(f);
    NamesAreNames();
    NoNamesFound(Print(f), MONTHS, 1);
    NoNamesFound(Print(f), SHORT_MONTHS, 1);
  }

  /** What becomes of the text of a weekday field before it is compiled. */
  lemma WeekdayText(f: Field)
    requires f.items != []
    ensures WeekdayNumbers(Print(f)) == Print(Rewrite(f))
  {
    SevenPass(f.items, Tail(f.step));
    SevenTail(f.step);
    PrintLetterless(Rewrite(f));
    NamesAreNames();
    NoNamesFound(Print(Rewrite(f)), WEEKDAYS, 0);
    NoNamesFound(Print(Rewrite(f)), SHORT_WEEKDAYS, 0);
  }

  function CompileWeekday(f: Field): Option<string> { CompileField(5, Print(f)) }

  lemma WeekStars()
    ensures StarText(WEEK) == STARS[5]
  {
    assert ToString(0) == "0" && ToString(6) == "6";
  }

  /** What the matcher does with any weekday field: the meaning of the rewritten field. */
  lemma WeekdayMatches(f: Field, v: nat)
    requires f.items != []
    ensures CompileWeekday(f).Some?
    ensures MatchPattern(CompileWeekday(f).value, v) <==> Denotes(Rewrite(f), WEEK, v)
  {
    WeekdayText(f);
    WeekStars();
    MatchesExactlyDenoted(Rewrite(f), WEEK, v);
  }

  /** What validation does with any weekday field. */
  lemma WeekdayValid(f: Field)
    requires f.items != []
    ensures CompileWeekday(f).Some?
    ensures IsValid(CompileWeekday(f).value, 0, 7) <==>
            && (f.step.None? ==> Stars(Rewrite(f).items) <= 1)
            && (exists v: nat :: Denotes(Rewrite(f), WEEK, v))
            && (forall v: nat :: Denotes(Rewrite(f), WEEK, v) ==> v <= 7)
  {
    WeekdayText(f);
    WeekStars();
    ValidExactlyWithin(Rewrite(f), WEEK, 0, 7);
  }

  // ---- the days that are meant ----------------------------------------------------------------------

  /** Day `d` is meant if it is denoted, or is Sunday and 7 is denoted. */
  predicate DayMeant(f: Field, d: nat) {
    Denotes(f, WEEK, d) || (d == 0 && Denotes(f, WEEK, 7))
  }

  /** All numbers are weekdays, 7 included. */
  predicate Weekdays(items: seq<Item>) {
    forall i :: 0 <= i < |items| ==> Weekday(items[i])
  }

  predicate Weekday(item: Item) {
    match item
    case Number(s) => Num(s) <= 7
    case Range(a, b) => Num(a) <= 7 && Num(b) <= 7
    case Star => true
  }

  lemma {:induction false} SevenValue(s: string)
    requires AllDigits(s) && Value(s) <= 7
    ensures '7' in s <==> Value(s) == 7
    ensures AllDigits(ReplaceFirst(s, '7', "0"))
    ensures '7' in s ==> Value(ReplaceFirst(s, '7', "0")) == 0
  {
    StillDigits(s);
    if s != "" {
      var front, last := s[..|s| - 1], s[|s| - 1];
      SevenValue(front);
      assert s == front + [last];
      ReplaceFirstAcross(front, [last], '7', "0");
      if last == '7' {
        NoSeven(front);
        var r := ReplaceFirst(s, '7', "0");
        assert [last][1..] == "";
        assert r == front + "0" && r[..|r| - 1] == front;
      }
    }
  }

  /** A number written with a 7 is at least 7. */
  lemma {:induction false} SevenIsLarge(s: string)
    requires AllDigits(s) && '7' in s
    ensures Value(s) >= 7
  {
    if s[|s| - 1] != '7' {
      assert s == s[..|s| - 1] + [s[|s| - 1]];
      SevenIsLarge(s[..|s| - 1]);
    }
  }

  /** The end of a range from or to 7 that is not the first 7. */
  function OtherEnd(item: Item): nat
    requires item.Range?
  {
    if '7' in item.a then Num(item.b) else Num(item.a)
  }

  /** What the first 7 of a list becomes: Sunday alone, or everything between Sunday and the other end. */
  lemma SevenItemMeans(item: Item, d: nat)
    requires Weekday(item) && HasSeven(item)
    ensures InItem(SevenItem(item), WEEK, d) <==> if item.Number? then d == 0 else d <= OtherEnd(item)
    ensures InItem(item, WEEK, d) <==> if item.Number? then d == 7 else OtherEnd(item) <= d <= 7
  {
    if item.Number? {
      SevenValue(item.s);
    } else {
      SevenValue(item.a);
      SevenValue(item.b);
    }
  }

  lemma WithoutSeven(items: seq<Item>)
    requires Weekdays(items) && !AnySeven(items)
    ensures !InItems(items, WEEK, 7)
  {
    forall i | 0 <= i < |items| ensures !InItem(items[i], WEEK, 7) {
      assert Weekday(items[i]) && !HasSeven(items[i]);
      if items[i].Number? {
        SevenValue(items[i].s);
      } else if items[i].Range? {
        SevenValue(items[i].a);
        SevenValue(items[i].b);
      }
    }
  }

  /** The list without the item that has the first 7. */
  function Others(items: seq<Item>): seq<Item>
    requires AnySeven(items)
  {
    items[..SevenAt(items)] + items[SevenAt(items) + 1..]
  }

  lemma ReplacedMeans(items: seq<Item>, j: nat, item: Item, v: nat)
    requires j < |items|
    ensures InItems(items[j := item], WEEK, v) <==>
            InItem(item, WEEK, v) || InItems(items[..j] + items[j + 1..], WEEK, v)
  {
    var front, back := items[..j], items[j + 1..];
    assert items[j := item] == front + ([item] + back);
    InItemsAppend(front, [item] + back, WEEK, v);
    InItemsCons([item] + back, WEEK, v);
    InItemsAppend(front, back, WEEK, v);
    assert ([item] + back)[1..] == back;
  }

  lemma FirstSevenMeans(items: seq<Item>, v: nat)
    requires AnySeven(items)
    ensures InItems(items, WEEK, v) <==> InItem(items[SevenAt(items)], WEEK, v) || InItems(Others(items), WEEK, v)
    ensures InItems(FirstSeven(items), WEEK, v) <==>
            InItem(SevenItem(items[SevenAt(items)]), WEEK, v) || InItems(Others(items), WEEK, v)
  {
    var j := SevenAt(items);
    ReplacedMeans(items, j, items[j], v);
    ReplacedMeans(items, j, SevenItem(items[j]), v);
    assert items[j := items[j]] == items;
  }

  // ---- when the rewriting does no harm --------------------------------------------------------------

  /** Sunday comes out right: the step takes 7 as well, or the list has a 0 anyway. */
  predicate SundayStays(item: Item, others: seq<Item>, step: Option<nat>) {
    StepTakes(step, 7) || InItems(others, WEEK, 0) || (item.Range? && OtherEnd(item) == 0)
  }

  /** The other days come out right: the rest of the list has those on the wrong side of the range's other end. */
  predicate DaysStay(item: Item, others: seq<Item>, step: Option<nat>) {
    item.Range? ==>
      forall d: nat :: 1 <= d <= 6 && d != OtherEnd(item) && StepTakes(step, d) ==> InItems(others, WEEK, d)
  }

  /** A step is read with its first 7 as 0: then nothing is taken, or more than Sunday. */
  predicate StepHarmless(items: seq<Item>, step: Numeral) {
    var read := Num(ZeroSeven(step));
    if read == 0 then !InItems(items, WEEK, 0)
    else forall d: nat :: 1 <= d <= 6 && InItems(items, WEEK, d) ==> d % read != 0
  }

  predicate SevenHarmless(f: Field) {
    if AnySeven(f.items) then
      var item, others, step := f.items[SevenAt(f.items)], Others(f.items), StepOf(f.step);
      step == Some(0) || (SundayStays(item, others, step) && DaysStay(item, others, step))
    else
      f.step.Some? && '7' in f.step.value ==> StepHarmless(f.items, f.step.value)
  }

  /** The compiled field is matched on day `d` exactly if the field means that day. */
  predicate KeptOn(f: Field, d: nat) {
    CompileWeekday(f).Some? && (MatchPattern(CompileWeekday(f).value, d) <==> DayMeant(f, d))
  }

  lemma KeptMeans(f: Field, d: nat)
    requires f.items != []
    ensures KeptOn(f, d) <==> (Denotes(Rewrite(f), WEEK, d) <==> DayMeant(f, d))
  {
    WeekdayMatches(f, d);
  }

  /** What a list with a 7 denotes as it is read, and as it is meant. */
  lemma ListedSeven(f: Field, d: nat)
    requires AnySeven(f.items) && Weekday(f.items[SevenAt(f.items)])
    ensures
      var item, others, step := f.items[SevenAt(f.items)], Others(f.items), StepOf(f.step);
      && (Denotes(Rewrite(f), WEEK, d) <==>
            ((if item.Number? then d == 0 else d <= OtherEnd(item)) || InItems(others, WEEK, d)) && StepTakes(step, d))
      && (Denotes(f, WEEK, d) <==>
            ((if item.Number? then d == 7 else OtherEnd(item) <= d <= 7) || InItems(others, WEEK, d))
            && StepTakes(step, d))
  {
    FirstSevenMeans(f.items, d);
    SevenItemMeans(f.items[SevenAt(f.items)], d);
  }

  /** A 7 in the list: what one day needs. */
  lemma ListedSevenDay(f: Field, d: nat)
    requires Weekdays(f.items) && AnySeven(f.items) && d <= 6
    ensures
      var item, others, step := f.items[SevenAt(f.items)], Others(f.items), StepOf(f.step);
      KeptOn(f, d) <==>
        || step == Some(0)
        || (if d == 0 then SundayStays(item, others, step)
            else item.Range? && d != OtherEnd(item) && StepTakes(step, d) ==> InItems(others, WEEK, d))
  {
    var item := f.items[SevenAt(f.items)];
    KeptMeans(f, d);
    assert Weekday(item);
    ListedSeven(f, d);
    ListedSeven(f, 7);
  }

  /** Of the days of a week, a step of at least 7 takes only Sunday. */
  lemma LargeStep(n: nat, d: nat)
    requires n >= 7 && d <= 6
    ensures StepTakes(Some(n), d) <==> d == 0
  {
    assert d % n == d;
  }

  /** No 7 in the list: what one day needs of the step. */
  lemma SteppedSevenDay(f: Field, d: nat)
    requires f.items != [] && Weekdays(f.items) && !AnySeven(f.items) && d <= 6
    ensures
      KeptOn(f, d) <==> (f.step.Some? && '7' in f.step.value && InItems(f.items, WEEK, d) ==>
        (StepTakes(Some(Num(ZeroSeven(f.step.value))), d) <==> d == 0))
  {
    KeptMeans(f, d);
    WithoutSeven(f.items);
    assert DayMeant(f, d) <==> InItems(f.items, WEEK, d) && StepTakes(StepOf(f.step), d);
    if f.step.Some? {
      if '7' in f.step.value {
        SevenIsLarge(f.step.value);
        LargeStep(Num(f.step.value), d);
      } else {
        NoSeven(f.step.value);
      }
    }
  }

  lemma ListedSevenKept(f: Field)
    requires Weekdays(f.items) && AnySeven(f.items)
    ensures (forall d: nat :: d <= 6 ==> KeptOn(f, d)) <==> SevenHarmless(f)
  {
    var item, others, step := f.items[SevenAt(f.items)], Others(f.items), StepOf(f.step);
    forall d: nat | d <= 6
      ensures KeptOn(f, d) <==>
        || step == Some(0)
        || (if d == 0 then SundayStays(item, others, step)
            else item.Range? && d != OtherEnd(item) && StepTakes(step, d) ==> InItems(others, WEEK, d))
    {
      ListedSevenDay(f, d);
    }
    assert KeptOn(f, 0) <==> step == Some(0) || SundayStays(item, others, step);
    if !DaysStay(item, others, step) {
      var d: nat :| 1 <= d <= 6 && d != OtherEnd(item) && StepTakes(step, d) && !InItems(others, WEEK, d);
      assert KeptOn(f, d) <==> step == Some(0);
    }
  }

  lemma SteppedSevenKept(f: Field)
    requires f.items != [] && Weekdays(f.items) && !AnySeven(f.items)
    ensures (forall d: nat :: d <= 6 ==> KeptOn(f, d)) <==> SevenHarmless(f)
  {
    forall d: nat | d <= 6
      ensures KeptOn(f, d) <==> (f.step.Some? && '7' in f.step.value && InItems(f.items, WEEK, d) ==>
        (StepTakes(Some(Num(ZeroSeven(f.step.value))), d) <==> d == 0))
    {
      SteppedSevenDay(f, d);
    }
    if f.step.Some? && '7' in f.step.value && !StepHarmless(f.items, f.step.value) {
      var read := Num(ZeroSeven(f.step.value));
      if read == 0 {
        assert !KeptOn(f, 0);
      } else {
        var d: nat :| 1 <= d <= 6 && InItems(f.items, WEEK, d) && d % read == 0;
        assert !KeptOn(f, d);
      }
    }
  }

  /** SUNDAY AS 7: a weekday field, whatever its list and step, is matched on exactly the days it means if and
      only if its first 7 does no harm. */
  lemma WeekdaysKeptIffHarmless(f: Field)
    requires f.items != [] && Weekdays(f.items)
    ensures (forall d: nat :: d <= 6 ==> KeptOn(f, d)) <==> SevenHarmless(f)
  {
    if AnySeven(f.items) {
      ListedSevenKept(f);
    } else {
      SteppedSevenKept(f);
    }
  }

  // ---- what goes wrong ------------------------------------------------------------------------------

  /** One range without a step: it must have no 7. */
  lemma RangeKeptIffNoSeven(a: Numeral, b: Numeral)
    requires Num(a) <= 7 && Num(b) <= 7
    ensures (forall d: nat :: d <= 6 ==> KeptOn(Field([Range(a, b)], None), d)) <==> Num(a) != 7 && Num(b) != 7
  {
    var item := Range(a, b);
    var f := Field([item], None);
    assert Weekday(item);
    WeekdaysKeptIffHarmless(f);
    SevenValue(a);
    SevenValue(b);
    if HasSeven(item) {
      assert SevenAt(f.items) == 0 && Others(f.items) == [];
      assert !InItems([], WEEK, 1) && !InItems([], WEEK, 2);
      assert OtherEnd(item) != 1 || OtherEnd(item) != 2;
    }
  }

  /** A step that is read as 0, as that of every 7th day is, loses the Sunday it means: the crontab is refused. */
  lemma SeventhDayRefused(f: Field)
    requires f.items != [] && Weekdays(f.items) && !AnySeven(f.items) && InItems(f.items, WEEK, 0)
    requires f.step.Some? && '7' in f.step.value && Num(ZeroSeven(f.step.value)) == 0
    ensures DayMeant(f, 0)
    ensures CompileWeekday(f).Some? && !IsValid(CompileWeekday(f).value, 0, 7)
  {
    SevenIsLarge(f.step.value);
    WeekdayValid(f);
    assert forall v: nat :: !Denotes(Rewrite(f), WEEK, v);
  }

  /** A number that is no weekday is accepted if its first 7 read as 0 makes it one: 70 is Sunday. */
  lemma NoWeekdayAccepted(s: Numeral)
    requires '7' in s
    ensures
      var f := Field([Number(s)], None);
      && CompileWeekday(f).Some?
      && (IsValid(CompileWeekday(f).value, 0, 7) <==> Num(ZeroSeven(s)) <= 7)
      && forall d: nat :: MatchPattern(CompileWeekday(f).value, d) <==> d == Num(ZeroSeven(s))
  {
    var f := Field([Number(s)], None);
    var g := Rewrite(f);
    assert g == Field([Number(ZeroSeven(s))], None);
    forall v: nat ensures Denotes(g, WEEK, v) <==> v == Num(ZeroSeven(s)) {
      InItemsCons(g.items, WEEK, v);
    }
    WeekdayValid(f);
    assert Denotes(g, WEEK, Num(ZeroSeven(s)));
    forall d: nat ensures MatchPattern(CompileWeekday(f).value, d) <==> d == Num(ZeroSeven(s)) {
      WeekdayMatches(f, d);
    }
  }
}
