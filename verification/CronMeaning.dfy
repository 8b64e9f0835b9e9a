/** What a crontab field means, and that the compiler keeps it: for every list of numbers, ranges in either
    order and asterisks, with or without a trailing step. */
module CronMeaning {
  import opened Options
  import opened Decimals
  import opened Crontab

  /** Numbers as they are written, with leading zeros or without. */
  datatype Item = Number(s: Numeral) | Range(a: Numeral, b: Numeral) | Star

  /** A nonempty list; a step applies to the whole list. */
  datatype Field = Field(items: seq<Item>, step: Option<Numeral>)

  /** The numbers an asterisk stands for, which depend on the position of the field. */
  datatype Bounds = Bounds(lo: nat, hi: nat)

  // ---- the meaning ------------------------------------------------------------------------------

  predicate InItem(item: Item, bounds: Bounds, v: nat) {
    match item
    case Number(s) => v == Num(s)
    case Range(a, b) => Num(a) <= v <= Num(b) || Num(b) <= v <= Num(a)
    case Star => bounds.lo <= v <= bounds.hi
  }

  predicate InItems(items: seq<Item>, bounds: Bounds, v: nat) {
    exists i :: 0 <= i < |items| && InItem(items[i], bounds, v)
  }

  predicate StepTakes(step: Option<nat>, v: nat) {
    step.Some? ==> step.value > 0 && v % step.value == 0
  }

  function StepOf(step: Option<Numeral>): Option<nat> {
    match step
    case None => None
    case Some(s) => Some(Num(s))
  }

  predicate Denotes(f: Field, bounds: Bounds, v: nat) {
    InItems(f.items, bounds, v) && StepTakes(StepOf(f.step), v)
  }

  // ---- the text ---------------------------------------------------------------------------------

  function PrintItem(item: Item): string {
    match item
    case Number(s) => s
    case Range(a, b) => a + "-" + b
    case Star => "*"
  }

  function Parts(items: seq<Item>): (r: seq<string>)
    ensures |r| == |items|
    ensures forall i :: 0 <= i < |items| ==> r[i] == PrintItem(items[i])
  {
    seq(|items|, i requires 0 <= i < |items| => PrintItem(items[i]))
  }

  /** The items separated by commas, and then a text. */
  function Emit(items: seq<Item>, tail: string): string {
    if items == [] then tail
    else if |items| == 1 then PrintItem(items[0]) + tail
    else PrintItem(items[0]) + ([','] + Emit(items[1..], tail))
  }

  function Tail(step: Option<Numeral>): string {
    if step.None? then "" else "/" + step.value
  }

  function Print(f: Field): string { Emit(f.items, Tail(f.step)) }

  function StarText(bounds: Bounds): string { ToString(bounds.lo) + "-" + ToString(bounds.hi) }

  lemma {:induction false} EmitJoins(items: seq<Item>, tail: string)
    requires items != []
    ensures Emit(items, tail) == Join(Parts(items), ',') + tail
  {
    if |items| > 1 {
      EmitJoins(items[1..], tail);
      assert Parts(items)[1..] == Parts(items[1..]);
      var p, rest := PrintItem(items[0]), Join(Parts(items[1..]), ',');
      Regroup(p + [','], rest, tail);
      Regroup(p, [','], rest + tail);
    }
  }

  lemma {:induction false} EmitAppend(xs: seq<Item>, ys: seq<Item>, tail: string)
    requires xs != [] && ys != []
    ensures Emit(xs + ys, tail) == Emit(xs, [','] + Emit(ys, tail))
  {
    assert (xs + ys)[1..] == xs[1..] + ys;
    if |xs| > 1 {
      EmitAppend(xs[1..], ys, tail);
    } else {
      assert (xs + ys)[1..] == ys;
    }
  }

  // ---- pass one: the first asterisk -------------------------------------------------------------

  function FirstStar(items: seq<Item>, bounds: Bounds): (r: seq<Item>)
    ensures |r| == |items|
  {
    if items == [] then []
    else if items[0].Star? then [Range(Written(bounds.lo), Written(bounds.hi))] + items[1..]
    else [items[0]] + FirstStar(items[1..], bounds)
  }

  lemma ItemAsterisk(item: Item, bounds: Bounds)
    ensures '*' in PrintItem(item) <==> item.Star?
    ensures item.Star? ==> ReplaceFirst(PrintItem(item), '*', StarText(bounds)) == StarText(bounds)
  {
    if item.Star? { assert "*"[1..] == ""; }
  }

  lemma {:induction false} AsteriskPass(items: seq<Item>, tail: string, bounds: Bounds)
    requires items != [] && '*' !in tail
    ensures ReplaceFirst(Emit(items, tail), '*', StarText(bounds)) == Emit(FirstStar(items, bounds), tail)
  {
    ItemAsterisk(items[0], bounds);
    var t := if |items| == 1 then tail else [','] + Emit(items[1..], tail);
    ReplaceFirstAcross(PrintItem(items[0]), t, '*', StarText(bounds));
    if !items[0].Star? {
      if |items| == 1 {
        NothingReplaced(tail, StarText(bounds));
      } else {
        AsteriskPass(items[1..], tail, bounds);
        assert t[1..] == Emit(items[1..], tail);
      }
    }
  }

  lemma {:induction false} NothingReplaced(s: string, put: string)
    requires '*' !in s
    ensures ReplaceFirst(s, '*', put) == s
  {
    if s != "" { NothingReplaced(s[1..], put); }
  }

  lemma {:induction false} AsteriskConverted(items: seq<Item>, tail: string, bounds: Bounds)
    requires items != [] && '*' !in tail
    ensures ConvertAsterisk(Emit(items, tail), StarText(bounds)) == Emit(FirstStar(items, bounds), tail)
  {
    AsteriskPass(items, tail, bounds);
    if '*' !in Emit(items, tail) {
      NothingReplaced(Emit(items, tail), StarText(bounds));
    }
  }

  /** Replacing an asterisk by its range changes no meaning. */
  lemma {:induction false} FirstStarMeans(items: seq<Item>, bounds: Bounds, v: nat)
    requires bounds.lo <= bounds.hi
    ensures InItems(FirstStar(items, bounds), bounds, v) <==> InItems(items, bounds, v)
  {
    if items != [] {
      FirstStarMeans(items[1..], bounds, v);
      InItemsCons(items, bounds, v);
      InItemsCons(FirstStar(items, bounds), bounds, v);
    }
  }

  lemma InItemsCons(items: seq<Item>, bounds: Bounds, v: nat)
    requires items != []
    ensures InItems(items, bounds, v) <==> InItem(items[0], bounds, v) || InItems(items[1..], bounds, v)
  {
    if InItems(items[1..], bounds, v) {
      var i :| 0 <= i < |items[1..]| && InItem(items[1..][i], bounds, v);
      assert InItem(items[i + 1], bounds, v);
    }
    if InItems(items, bounds, v) && !InItem(items[0], bounds, v) {
      var i :| 0 <= i < |items| && InItem(items[i], bounds, v);
      assert items[1..][i - 1] == items[i];
    }
  }

  lemma {:induction false} InItemsAppend(xs: seq<Item>, ys: seq<Item>, bounds: Bounds, v: nat)
    ensures InItems(xs + ys, bounds, v) <==> InItems(xs, bounds, v) || InItems(ys, bounds, v)
  {
    if xs == [] {
      assert xs + ys == ys;
    } else {
      InItemsCons(xs, bounds, v);
      InItemsCons(xs + ys, bounds, v);
      assert (xs + ys)[1..] == xs[1..] + ys;
      InItemsAppend(xs[1..], ys, bounds, v);
    }
  }

  // ---- pass two: ranges -------------------------------------------------------------------------

  function Listed(ns: seq<nat>): (r: seq<Item>)
    ensures |r| == |ns|
    ensures forall i :: 0 <= i < |ns| ==> r[i] == Number(Written(ns[i]))
  {
    seq(|ns|, i requires 0 <= i < |ns| => Number(Written(ns[i])))
  }

  function InRange(item: Item): seq<nat>
    requires item.Range?
  {
    Between(Num(item.a), Num(item.b))
  }

  predicate HasRange(items: seq<Item>) {
    exists i :: 0 <= i < |items| && items[i].Range?
  }

  function ExpandFirst(items: seq<Item>): seq<Item> {
    if items == [] then []
    else if items[0].Range? then Listed(InRange(items[0])) + items[1..]
    else [items[0]] + ExpandFirst(items[1..])
  }

  function Expand(items: seq<Item>): seq<Item> {
    if items == [] then []
    else if items[0].Range? then Listed(InRange(items[0])) + Expand(items[1..])
    else [items[0]] + Expand(items[1..])
  }

  function Ranges(items: seq<Item>): nat {
    if items == [] then 0 else (if items[0].Range? then 1 else 0) + Ranges(items[1..])
  }

  /** What may follow an item: it must end a run of digits and not be a minus sign. */
  predicate EndsItem(t: string) {
    t != "" ==> !IsDigit(t[0]) && t[0] != '-'
  }

  lemma PrependTwice(x: string, y: string, o: Option<string>)
    ensures Prepend(x, Prepend(y, o)) == Prepend(x + y, o)
    ensures Prepend("", o) == o
  {
    if o.Some? {
      Regroup(x, y, o.value);
      assert "" + o.value == o.value;
    }
  }

  lemma {:induction false} SkipDigits(d: string, t: string)
    requires AllDigits(d) && EndsItem(t)
    ensures ConvertOnce(d + t) == Prepend(d, ConvertOnce(t))
  {
    RunOfDigits(d, t);
    if d == "" {
      assert d + t == t;
      PrependTwice("", "", ConvertOnce(t));
    } else {
      assert (d + t)[1..] == d[1..] + t;
      assert !RangeHere(d + t);
      SkipDigits(d[1..], t);
      PrependTwice([d[0]], d[1..], ConvertOnce(t));
      assert [d[0]] + d[1..] == d;
    }
  }

  lemma SkipChar(c: char, t: string)
    requires !IsDigit(c)
    ensures ConvertOnce([c] + t) == Prepend([c], ConvertOnce(t))
  {
    assert ([c] + t)[1..] == t;
  }

  lemma {:induction false} NoRange(t: string)
    requires '-' !in t
    ensures ConvertOnce(t) == None
  {
    if t != "" { NoRange(t[1..]); }
  }

  lemma RangeParts(x: string, y: string, t: string)
    requires x != "" && y != "" && AllDigits(x) && AllDigits(y) && EndsItem(t)
    ensures
      var s := x + (['-'] + (y + t));
      && RangeHere(s) && FirstLength(s) == |x| && LastLength(s) == |y|
      && s[..|x|] == x && s[|x| + 1..][..|y|] == y && s[RangeLength(s)..] == t
  {
    var s := x + (['-'] + (y + t));
    RunOfDigits(x, ['-'] + (y + t));
    RunOfDigits(y, t);
    assert s[|x| + 1..] == y + t;
  }

  lemma RangeInFront(item: Item, t: string)
    requires item.Range? && EndsItem(t)
    ensures ConvertOnce(PrintItem(item) + t) == Some(Emit(Listed(InRange(item)), t))
  {
    var x, y := item.a, item.b;
    Regroup(x + ['-'], y, t);
    Regroup(x, ['-'], y + t);
    RangeParts(x, y, t);
    BetweenSome(Num(x), Num(y));
    EmitJoins(Listed(InRange(item)), t);
    assert Parts(Listed(InRange(item))) == Texts(InRange(item));
  }

  /** Skipping an item that is not a range. */
  lemma SkipItem(item: Item, t: string)
    requires !item.Range? && EndsItem(t)
    ensures ConvertOnce(PrintItem(item) + t) == Prepend(PrintItem(item), ConvertOnce(t))
  {
    if item.Number? {
      SkipDigits(item.s, t);
    } else {
      SkipChar('*', t);
    }
  }

  /** A text after which nothing is left to expand. */
  predicate PlainTail(t: string) { EndsItem(t) && '-' !in t }

  lemma BetweenSome(a: nat, b: nat)
    ensures Between(a, b) != []
  {
  }

  lemma {:induction false} OnePass(items: seq<Item>, tail: string)
    requires items != [] && PlainTail(tail)
    ensures ConvertOnce(Emit(items, tail)) == if HasRange(items) then Some(Emit(ExpandFirst(items), tail)) else None
  {
    var item, more := items[0], items[1..];
    HasRangeCons(items);
    if item.Range? {
      OnePassRange(items, tail);
    } else if |items| == 1 {
      SkipItem(item, tail);
      NoRange(tail);
    } else {
      SkipItem(item, [','] + Emit(more, tail));
      SkipChar(',', Emit(more, tail));
      OnePass(more, tail);
      if HasRange(more) {
        ExpandFirstSome(more);
        assert ExpandFirst(items)[1..] == ExpandFirst(more);
      }
    }
  }

  lemma OnePassRange(items: seq<Item>, tail: string)
    requires items != [] && items[0].Range? && PlainTail(tail)
    ensures ConvertOnce(Emit(items, tail)) == Some(Emit(ExpandFirst(items), tail))
  {
    var listed := Listed(InRange(items[0]));
    BetweenSome(Num(items[0].a), Num(items[0].b));
    if |items| == 1 {
      RangeInFront(items[0], tail);
      assert listed + items[1..] == listed;
    } else {
      RangeInFront(items[0], [','] + Emit(items[1..], tail));
      EmitAppend(listed, items[1..], tail);
    }
  }

  lemma HasRangeCons(items: seq<Item>)
    requires items != []
    ensures HasRange(items) <==> items[0].Range? || HasRange(items[1..])
  {
    if HasRange(items) && !items[0].Range? {
      var i :| 0 <= i < |items| && items[i].Range?;
      assert items[1..][i - 1].Range?;
    }
    if HasRange(items[1..]) {
      var i :| 0 <= i < |items[1..]| && items[1..][i].Range?;
      assert items[i + 1].Range?;
    }
  }

  lemma ExpandFirstSome(items: seq<Item>)
    requires items != []
    ensures ExpandFirst(items) != []
  {
    if items[0].Range? { BetweenSome(Num(items[0].a), Num(items[0].b)); }
  }

  lemma ListedCons(ns: seq<nat>, more: seq<Item>)
    requires ns != []
    ensures Listed(ns) + more == [Number(Written(ns[0]))] + (Listed(ns[1..]) + more)
    ensures (Listed(ns) + more)[1..] == Listed(ns[1..]) + more
  {
    assert Listed(ns) == [Number(Written(ns[0]))] + Listed(ns[1..]);
  }

  lemma {:induction false} ListedHasNone(ns: seq<nat>, more: seq<Item>)
    ensures Ranges(Listed(ns) + more) == Ranges(more)
    ensures Expand(Listed(ns) + more) == Listed(ns) + Expand(more)
  {
    if ns == [] {
      assert Listed(ns) + more == more;
      assert Listed(ns) + Expand(more) == Expand(more);
    } else {
      ListedCons(ns, more);
      ListedCons(ns, Expand(more));
      ListedHasNone(ns[1..], more);
    }
  }

  lemma {:induction false} ExpandFirstKeeps(items: seq<Item>)
    ensures Expand(ExpandFirst(items)) == Expand(items)
    ensures HasRange(items) ==> Ranges(ExpandFirst(items)) == Ranges(items) - 1
    ensures !HasRange(items) ==> Expand(items) == items && Ranges(items) == 0
  {
    if items != [] {
      HasRangeCons(items);
      if items[0].Range? {
        ListedHasNone(InRange(items[0]), items[1..]);
      } else {
        ExpandFirstKeeps(items[1..]);
        assert ([items[0]] + ExpandFirst(items[1..]))[1..] == ExpandFirst(items[1..]);
      }
    }
  }

  /** Repeating the pass expands every range. */
  lemma {:induction false} RangesConverted(items: seq<Item>, tail: string)
    requires items != [] && PlainTail(tail)
    ensures Expand(items) != [] && ConvertRanges(Emit(items, tail)) == Emit(Expand(items), tail)
    decreases Ranges(items)
  {
    OnePass(items, tail);
    ExpandFirstKeeps(items);
    if HasRange(items) {
      ExpandFirstSome(items);
      RangesConverted(ExpandFirst(items), tail);
    }
  }

  lemma {:induction false} NumbersMeans(lo: nat, hi: nat, v: nat)
    ensures v in Numbers(lo, hi) <==> lo <= v <= hi
    decreases hi - lo
  {
    if lo <= hi { NumbersMeans(lo + 1, hi, v); }
  }

  lemma ListedMeans(ns: seq<nat>, bounds: Bounds, v: nat)
    ensures InItems(Listed(ns), bounds, v) <==> v in ns
  {
    if v in ns {
      var i :| 0 <= i < |ns| && ns[i] == v;
      assert InItem(Listed(ns)[i], bounds, v);
    }
  }

  /** Expanding a range changes no meaning. */
  lemma {:induction false} ExpandMeans(items: seq<Item>, bounds: Bounds, v: nat)
    ensures InItems(Expand(items), bounds, v) <==> InItems(items, bounds, v)
  {
    if items != [] {
      ExpandMeans(items[1..], bounds, v);
      InItemsCons(items, bounds, v);
      if items[0].Range? {
        var a, b := Num(items[0].a), Num(items[0].b);
        InItemsAppend(Listed(InRange(items[0])), Expand(items[1..]), bounds, v);
        ListedMeans(InRange(items[0]), bounds, v);
        NumbersMeans(a, b, v);
        NumbersMeans(b, a, v);
      } else {
        InItemsCons([items[0]] + Expand(items[1..]), bounds, v);
        assert ([items[0]] + Expand(items[1..]))[1..] == Expand(items[1..]);
      }
    }
  }
}
