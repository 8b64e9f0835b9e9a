/** The cron compiler preserves meaning: what the matcher accepts and what validation accepts, for every
    field. */
module CronCorrectness {
  import opened Options
  import opened Decimals
  import opened Crontab
  import opened CronMeaning

  /** No range is left. */
  predicate Flat(items: seq<Item>) {
    forall i :: 0 <= i < |items| ==> !items[i].Range?
  }

  lemma {:induction false} ExpandFlat(items: seq<Item>)
    ensures Flat(Expand(items))
  {
    if items != [] { ExpandFlat(items[1..]); }
  }

  lemma LacksDigitless(s: Numeral, c: char)
    requires !IsDigit(c)
    ensures c !in s
  {
  }

  lemma DigitsOnly(n: nat, c: char)
    requires !IsDigit(c)
    ensures c !in ToString(n)
  {
    ToStringDigits(n);
  }

  /** A number of the list, however it is written. */
  predicate Has(items: seq<Item>, v: nat) {
    exists i :: 0 <= i < |items| && IsNumber(items[i], v)
  }

  predicate IsNumber(item: Item, v: nat) {
    item.Number? && Num(item.s) == v
  }

  lemma HasAppend(xs: seq<Item>, ys: seq<Item>, v: nat)
    ensures Has(xs + ys, v) <==> Has(xs, v) || Has(ys, v)
  {
    if Has(xs, v) {
      var i :| 0 <= i < |xs| && IsNumber(xs[i], v);
      assert IsNumber((xs + ys)[i], v);
    }
    if Has(ys, v) {
      var i :| 0 <= i < |ys| && IsNumber(ys[i], v);
      assert IsNumber((xs + ys)[|xs| + i], v);
    }
    if Has(xs + ys, v) {
      var i :| 0 <= i < |xs + ys| && IsNumber((xs + ys)[i], v);
      assert if i < |xs| then IsNumber(xs[i], v) else IsNumber(ys[i - |xs|], v);
    }
  }

  lemma PartsAreWords(items: seq<Item>, c: char)
    requires Flat(items) && !IsDigit(c) && c != '*'
    ensures forall p :: p in Parts(items) ==> c !in p && p != ""
  {
    forall i | 0 <= i < |items| ensures c !in Parts(items)[i] && Parts(items)[i] != "" {
      if items[i].Number? { LacksDigitless(items[i].s, c); }
    }
  }

  lemma {:induction false} JoinLacks(parts: seq<string>, c: char)
    requires c != ',' && forall p :: p in parts ==> c !in p
    ensures c !in Join(parts, ',')
  {
    if |parts| > 1 { JoinLacks(parts[1..], c); }
  }

  // ---- pass three: the step ---------------------------------------------------------------------

  /** The numbers of the list that a step keeps; what is left of an asterisk is dropped. */
  function Multiples(items: seq<Item>, step: nat): seq<nat> {
    if items == [] then []
    else
      var last := items[|items| - 1];
      var before := Multiples(items[..|items| - 1], step);
      if last.Number? && StepTakes(Some(step), Num(last.s)) then before + [Num(last.s)] else before
  }

  lemma {:induction false} StepKeepsMultiples(items: seq<Item>, step: nat)
    requires Flat(items)
    ensures StepValues(Parts(items), step) == Texts(Multiples(items, step))
  {
    if items != [] {
      var n := |items| - 1;
      StepKeepsMultiples(items[..n], step);
      assert Parts(items)[..n] == Parts(items[..n]);
      if items[n].Number? {
        ParseNumeral(items[n].s);
        KeptMultiple(Num(items[n].s), step);
      }
    }
  }

  lemma KeptMultiple(n: nat, step: nat)
    ensures Kept(Some(n), step) <==> StepTakes(Some(step), n)
  {
  }

  lemma {:induction false} MultiplesMean(items: seq<Item>, step: nat, v: nat)
    ensures v in Multiples(items, step) <==> Has(items, v) && StepTakes(Some(step), v)
  {
    if items != [] {
      var n := |items| - 1;
      MultiplesMean(items[..n], step, v);
      assert items == items[..n] + [items[n]];
      HasAppend(items[..n], [items[n]], v);
      assert Has([items[n]], v) <==> IsNumber([items[n]][0], v);
    }
  }

  lemma {:induction false} SlashFound(values: string, base: string)
    requires '/' !in base
    ensures LastSlash(values + ("/" + base)) == Some(|values|)
  {
    var s := values + ("/" + base);
    if base != "" {
      assert s[..|s| - 1] == values + ("/" + base[..|base| - 1]);
      SlashFound(values, base[..|base| - 1]);
    }
  }

  lemma SlashParts(values: string, base: string)
    ensures
      var s := values + ("/" + base);
      s[..|values|] == values && s[|values| + 1..] == base && |s| == |values| + 1 + |base|
  {
  }

  /** A list and a number, separated by a slash, are a step. */
  lemma StepFound(values: string, base: Numeral)
    requires values != "" && OneLine(values)
    ensures StepPattern(values + ("/" + base)) == Some((values, base))
  {
    SlashFound(values, base);
    SlashParts(values, base);
  }

  /** The two ways a field of flat items ends. */
  lemma StepApplied(items: seq<Item>, step: Option<Numeral>)
    requires items != [] && Flat(items)
    ensures ConvertStep(Emit(items, Tail(step))) == Some(Join(Stepped(items, StepOf(step)), ','))
  {
    var values := Join(Parts(items), ',');
    EmitJoins(items, Tail(step));
    PartsLackAll(items);
    if step.None? {
      assert values + "" == values;
    } else {
      StepFound(values, step.value);
      ParseNumeral(step.value);
      SplitJoin(Parts(items), ',');
      StepKeepsMultiples(items, Num(step.value));
    }
  }

  function Stepped(items: seq<Item>, step: Option<nat>): seq<string> {
    if step.None? then Parts(items) else Texts(Multiples(items, step.value))
  }

  lemma PartsLackAll(items: seq<Item>)
    requires items != [] && Flat(items)
    ensures
      var values := Join(Parts(items), ',');
      values != "" && '/' !in values && OneLine(values) && forall p :: p in Parts(items) ==> ',' !in p
  {
    var breaks := ['\n', '\r', '\U{2028}', '\U{2029}', '/'];
    forall c | c in breaks ensures c !in Join(Parts(items), ',') {
      PartsAreWords(items, c);
      JoinLacks(Parts(items), c);
    }
    assert '\n' in breaks && '\r' in breaks && '\U{2028}' in breaks && '\U{2029}' in breaks && '/' in breaks;
    PartsAreWords(items, ',');
    assert Parts(items)[0] in Parts(items);
  }

  // ---- pass four: normal numbers ----------------------------------------------------------------

  /** The options of a compiled field. */
  function Compiled(items: seq<Item>, step: Option<nat>): (r: seq<string>)
    ensures r != [] || items == []
  {
    if step.None? then NormalNumbers(Parts(items))
    else if Multiples(items, step.value) == [] then ["NaN"]
    else Texts(Multiples(items, step.value))
  }

  lemma NumbersAreNormal(ns: seq<nat>)
    requires ns != []
    ensures Normalize(Join(Texts(ns), ',')) == Join(Texts(ns), ',')
  {
    forall i | 0 <= i < |ns| ensures ',' !in Texts(ns)[i] && NormalNumber(Texts(ns)[i]) == Texts(ns)[i] {
      DigitsOnly(ns[i], ',');
      ParseToString(ns[i]);
    }
    SplitJoin(Texts(ns), ',');
    assert NormalNumbers(Texts(ns)) == Texts(ns);
  }

  lemma CompiledText(items: seq<Item>, step: Option<nat>)
    requires items != [] && Flat(items)
    ensures Normalize(Join(Stepped(items, step), ',')) == Join(Compiled(items, step), ',')
  {
    if step.None? {
      PartsLackAll(items);
      SplitJoin(Parts(items), ',');
    } else if Multiples(items, step.value) == [] {
      assert Split("", ',') == [""];
      assert NormalNumbers([""]) == ["NaN"];
    } else {
      NumbersAreNormal(Multiples(items, step.value));
    }
  }

  /** Every option is a number of the list, or no number at all. */
  lemma CompiledOptions(items: seq<Item>, step: Option<nat>, v: nat)
    requires Flat(items)
    ensures ToString(v) in Compiled(items, step) <==> Has(items, v) && StepTakes(step, v)
  {
    ToStringDigits(v);
    if step.None? {
      OptionAt(items, v);
    } else {
      MultiplesMean(items, step.value, v);
      TextsMember(Multiples(items, step.value), v);
      assert "NaN"[0] == 'N';
    }
  }

  lemma TextsMember(ns: seq<nat>, v: nat)
    ensures ToString(v) in Texts(ns) <==> v in ns
  {
    if v in ns {
      var i :| 0 <= i < |ns| && ns[i] == v;
      assert Texts(ns)[i] == ToString(v);
    }
    if ToString(v) in Texts(ns) {
      var i :| 0 <= i < |ns| && Texts(ns)[i] == ToString(v);
      ToStringInjective(ns[i], v);
    }
  }

  lemma NormalPart(item: Item)
    requires !item.Range?
    ensures NormalNumber(PrintItem(item)) == if item.Number? then ToString(Num(item.s)) else "NaN"
  {
    if item.Number? {
      ParseNumeral(item.s);
    } else {
      assert ParseInt("*") == None;
    }
  }

  lemma OptionAt(items: seq<Item>, v: nat)
    requires Flat(items)
    ensures ToString(v) in NormalNumbers(Parts(items)) <==> Has(items, v)
  {
    ToStringDigits(v);
    var options := NormalNumbers(Parts(items));
    if Has(items, v) {
      var i :| 0 <= i < |items| && IsNumber(items[i], v);
      NormalPart(items[i]);
      assert options[i] == ToString(v);
    }
    if ToString(v) in options {
      var i :| 0 <= i < |options| && options[i] == ToString(v);
      NormalPart(items[i]);
      assert "NaN"[0] == 'N';
      if items[i].Number? { ToStringInjective(Num(items[i].s), v); }
    }
  }

  lemma CompiledNoCommas(items: seq<Item>, step: Option<nat>)
    requires items != [] && Flat(items)
    ensures forall p :: p in Compiled(items, step) ==> ',' !in p
    ensures Split(Join(Compiled(items, step), ','), ',') == Compiled(items, step)
  {
    forall p | p in Compiled(items, step) ensures ',' !in p {
      var i :| 0 <= i < |Compiled(items, step)| && Compiled(items, step)[i] == p;
      if step.None? {
        NormalPart(items[i]);
        if items[i].Number? { DigitsOnly(Num(items[i].s), ','); }
      } else if Multiples(items, step.value) != [] {
        DigitsOnly(Multiples(items, step.value)[i], ',');
      }
    }
    SplitJoin(Compiled(items, step), ',');
  }

  // ---- matching ---------------------------------------------------------------------------------

  lemma {:induction false} SplitSingle(s: string)
    requires ',' !in s
    ensures Split(s, ',') == [s]
  {
    SplitAtSeparator(s, "", ',');
  }

  lemma MatchIsOption(pattern: string, v: nat)
    ensures MatchPattern(pattern, v) <==> ToString(v) in Split(pattern, ',')
  {
    if ',' !in pattern { SplitSingle(pattern); }
  }

  lemma {:induction false} NumbersListed(lo: nat, hi: nat, v: nat, more: seq<Item>)
    requires lo <= v <= hi
    ensures Has(Listed(Numbers(lo, hi)) + more, v)
    decreases hi - lo
  {
    ListedCons(Numbers(lo, hi), more);
    var head, rest := [Number(Written(lo))], Listed(Numbers(lo + 1, hi)) + more;
    if lo < v { NumbersListed(lo + 1, hi, v, more); } else { assert IsNumber(head[0], v); }
    HasAppend(head, rest, v);
  }

  /** An asterisk that is left over adds nothing: the first one was expanded. */
  lemma {:induction false} LeftOverStar(items: seq<Item>, bounds: Bounds, v: nat)
    requires bounds.lo <= v <= bounds.hi && Star in Expand(FirstStar(items, bounds))
    ensures Has(Expand(FirstStar(items, bounds)), v)
  {
    if items[0].Star? {
      NumbersListed(bounds.lo, bounds.hi, v, Expand(items[1..]));
    } else {
      var rest := Expand(FirstStar(items[1..], bounds));
      var front := if items[0].Range? then Listed(InRange(items[0])) else [items[0]];
      assert Star !in front;
      assert FirstStar(items, bounds)[1..] == FirstStar(items[1..], bounds);
      LeftOverStar(items[1..], bounds, v);
      HasAppend(front, rest, v);
    }
  }

  lemma FlatMeans(items: seq<Item>, bounds: Bounds, v: nat)
    requires Flat(items)
    ensures InItems(items, bounds, v) <==> Has(items, v) || (Star in items && bounds.lo <= v <= bounds.hi)
  {
    if Has(items, v) {
      var i :| 0 <= i < |items| && IsNumber(items[i], v);
      assert InItem(items[i], bounds, v);
    }
    if InItems(items, bounds, v) && Star !in items {
      var i :| 0 <= i < |items| && InItem(items[i], bounds, v);
      assert items[i] in items && IsNumber(items[i], v);
    }
    if Star in items && bounds.lo <= v <= bounds.hi {
      var i :| 0 <= i < |items| && items[i] == Star;
      assert InItem(items[i], bounds, v);
    }
  }

  /** The flat list of numbers a field is rewritten to. */
  function Rewritten(f: Field, bounds: Bounds): seq<Item> { Expand(FirstStar(f.items, bounds)) }

  lemma RewrittenMeans(f: Field, bounds: Bounds, v: nat)
    requires bounds.lo <= bounds.hi
    ensures Has(Rewritten(f, bounds), v) <==> InItems(f.items, bounds, v)
  {
    FirstStarMeans(f.items, bounds, v);
    ExpandMeans(FirstStar(f.items, bounds), bounds, v);
    ExpandFlat(FirstStar(f.items, bounds));
    FlatMeans(Rewritten(f, bounds), bounds, v);
    if Star in Rewritten(f, bounds) && bounds.lo <= v <= bounds.hi {
      LeftOverStar(f.items, bounds, v);
    }
  }

  lemma TailIsPlain(step: Option<Numeral>)
    ensures PlainTail(Tail(step)) && '*' !in Tail(step)
  {
  }

  /** The compiler turns the text of a field into the options of its rewritten list. */
  lemma CompileText(f: Field, bounds: Bounds)
    requires f.items != []
    ensures Rewritten(f, bounds) != [] && Flat(Rewritten(f, bounds))
    ensures Compile(Print(f), StarText(bounds)) == Some(Join(Compiled(Rewritten(f, bounds), StepOf(f.step)), ','))
  {
    TailIsPlain(f.step);
    AsteriskConverted(f.items, Tail(f.step), bounds);
    RangesConverted(FirstStar(f.items, bounds), Tail(f.step));
    ExpandFlat(FirstStar(f.items, bounds));
    StepApplied(Rewritten(f, bounds), f.step);
    CompiledText(Rewritten(f, bounds), StepOf(f.step));
  }

  /** THE COMPILER PRESERVES MEANING: for every list of numbers, ranges in either order and asterisks, with or
      without a step, the matcher accepts a number on the compiled text exactly if the field denotes it. */
  lemma {:induction false} MatchesExactlyDenoted(f: Field, bounds: Bounds, v: nat)
    requires f.items != [] && bounds.lo <= bounds.hi
    ensures Compile(Print(f), StarText(bounds)).Some?
    ensures MatchPattern(Compile(Print(f), StarText(bounds)).value, v) <==> Denotes(f, bounds, v)
  {
    CompileText(f, bounds);
    CompiledNoCommas(Rewritten(f, bounds), StepOf(f.step));
    MatchIsOption(Join(Compiled(Rewritten(f, bounds), StepOf(f.step)), ','), v);
    CompiledOptions(Rewritten(f, bounds), StepOf(f.step), v);
    RewrittenMeans(f, bounds, v);
  }

  // ---- validation -------------------------------------------------------------------------------

  function Stars(items: seq<Item>): nat {
    if items == [] then 0 else (if items[0].Star? then 1 else 0) + Stars(items[1..])
  }

  lemma {:induction false} NoStars(items: seq<Item>)
    ensures Stars(items) == 0 <==> Star !in items
  {
    if items != [] { NoStars(items[1..]); }
  }

  lemma {:induction false} ExpandStars(items: seq<Item>)
    ensures Star in Expand(items) <==> Star in items
  {
    if items != [] {
      ExpandStars(items[1..]);
      if items[0].Range? { assert Star !in Listed(InRange(items[0])); }
    }
  }

  lemma {:induction false} FirstStarLeaves(items: seq<Item>, bounds: Bounds)
    ensures Star in FirstStar(items, bounds) <==> Stars(items) > 1
  {
    if items != [] {
      if items[0].Star? {
        NoStars(items[1..]);
      } else {
        FirstStarLeaves(items[1..], bounds);
      }
    }
  }

  lemma OptionNumber(v: nat, min: int, max: int)
    ensures OptionOk(ToString(v), min, max) <==> min <= v <= max
    ensures !OptionOk("NaN", min, max)
  {
    ParseToString(v);
    ToStringDigits(v);
    assert !IsDigit("NaN"[0]);
  }

  /** A number a flat list keeps. */
  predicate Keeps(items: seq<Item>, step: Option<nat>, v: nat) {
    Has(items, v) && StepTakes(step, v)
  }

  predicate AllOk(options: seq<string>, min: int, max: int) {
    forall i :: 0 <= i < |options| ==> OptionOk(options[i], min, max)
  }

  /** All options of a compiled list are numbers between the limits. */
  lemma OptionsValid(items: seq<Item>, step: Option<nat>, min: int, max: int)
    requires items != [] && Flat(items)
    ensures IsValid(Join(Compiled(items, step), ','), min, max) <==>
            && (step.None? ==> Star !in items)
            && (exists v: nat :: Keeps(items, step, v))
            && (forall v: nat :: Keeps(items, step, v) ==> min <= v <= max)
  {
    CompiledNoCommas(items, step);
    assert IsValid(Join(Compiled(items, step), ','), min, max) <==> AllOk(Compiled(items, step), min, max);
    if step.None? {
      UnsteppedValid(items, min, max);
    } else {
      SteppedValid(items, step.value, min, max);
    }
  }

  /** Every item is a number within the limits. */
  predicate NumbersWithin(items: seq<Item>, min: int, max: int) {
    forall i :: 0 <= i < |items| ==> items[i].Number? && min <= Num(items[i].s) <= max
  }

  lemma UnsteppedValid(items: seq<Item>, min: int, max: int)
    requires items != [] && Flat(items)
    ensures AllOk(NormalNumbers(Parts(items)), min, max) <==>
            && Star !in items
            && (exists v: nat :: Keeps(items, None, v))
            && (forall v: nat :: Keeps(items, None, v) ==> min <= v <= max)
  {
    PartsValid(items, min, max);
    WithinMeans(items, min, max);
  }

  lemma PartsValid(items: seq<Item>, min: int, max: int)
    requires Flat(items)
    ensures AllOk(NormalNumbers(Parts(items)), min, max) <==> NumbersWithin(items, min, max)
  {
    forall i | 0 <= i < |items|
      ensures OptionOk(NormalNumbers(Parts(items))[i], min, max) <==>
              items[i].Number? && min <= Num(items[i].s) <= max
    {
      NormalPart(items[i]);
      OptionNumber(if items[i].Number? then Num(items[i].s) else 0, min, max);
    }
  }

  lemma WithinMeans(items: seq<Item>, min: int, max: int)
    requires items != [] && Flat(items)
    ensures NumbersWithin(items, min, max) <==>
            && Star !in items
            && (exists v: nat :: Keeps(items, None, v))
            && (forall v: nat :: Keeps(items, None, v) ==> min <= v <= max)
  {
    forall i | 0 <= i < |items| && items[i].Number? ensures Keeps(items, None, Num(items[i].s)) {
      assert IsNumber(items[i], Num(items[i].s));
    }
    if NumbersWithin(items, min, max) {
      assert Keeps(items, None, Num(items[0].s));
    } else {
      var i :| 0 <= i < |items| && !(items[i].Number? && min <= Num(items[i].s) <= max);
      assert items[i] in items;
      assert items[i].Number? ==> Keeps(items, None, Num(items[i].s));
    }
  }

  lemma TextsValid(ns: seq<nat>, min: int, max: int)
    ensures AllOk(Texts(ns), min, max) <==> forall i :: 0 <= i < |ns| ==> min <= ns[i] <= max
  {
    forall i | 0 <= i < |ns| ensures OptionOk(Texts(ns)[i], min, max) <==> min <= ns[i] <= max {
      OptionNumber(ns[i], min, max);
    }
  }

  lemma SteppedValid(items: seq<Item>, step: nat, min: int, max: int)
    requires items != [] && Flat(items)
    ensures AllOk(Compiled(items, Some(step)), min, max) <==>
            && (exists v: nat :: Keeps(items, Some(step), v))
            && (forall v: nat :: Keeps(items, Some(step), v) ==> min <= v <= max)
  {
    var ns := Multiples(items, step);
    assert KeptAre(ns, items, step) by {
      forall v: nat ensures v in ns <==> Keeps(items, Some(step), v) { MultiplesMean(items, step, v); }
    }
    if ns == [] {
      OptionNumber(0, min, max);
      assert !AllOk(["NaN"], min, max) by { assert !OptionOk(["NaN"][0], min, max); }
    } else {
      TextsValid(ns, min, max);
      KeptWithin(ns, items, step, min, max);
    }
  }

  ghost predicate KeptAre(ns: seq<nat>, items: seq<Item>, step: nat) {
    forall v: nat :: v in ns <==> Keeps(items, Some(step), v)
  }

  lemma KeptWithin(ns: seq<nat>, items: seq<Item>, step: nat, min: int, max: int)
    requires ns != [] && KeptAre(ns, items, step)
    ensures (forall i :: 0 <= i < |ns| ==> min <= ns[i] <= max) <==>
            (exists v: nat :: Keeps(items, Some(step), v))
            && (forall v: nat :: Keeps(items, Some(step), v) ==> min <= v <= max)
  {
    assert ns[0] in ns && Keeps(items, Some(step), ns[0]);
    forall i | 0 <= i < |ns| ensures Keeps(items, Some(step), ns[i]) {
      assert ns[i] in ns;
    }
  }

  /** VALIDATION IS EXACT: a compiled field is accepted if and only if it denotes something, denotes nothing
      outside the limits, and does not repeat an asterisk without a step. */
  lemma {:induction false} ValidExactlyWithin(f: Field, bounds: Bounds, min: int, max: int)
    requires f.items != [] && bounds.lo <= bounds.hi
    ensures Compile(Print(f), StarText(bounds)).Some?
    ensures IsValid(Compile(Print(f), StarText(bounds)).value, min, max) <==>
            && (f.step.None? ==> Stars(f.items) <= 1)
            && (exists v: nat :: Denotes(f, bounds, v))
            && (forall v: nat :: Denotes(f, bounds, v) ==> min <= v <= max)
  {
    CompileText(f, bounds);
    OptionsValid(Rewritten(f, bounds), StepOf(f.step), min, max);
    FirstStarLeaves(f.items, bounds);
    ExpandStars(FirstStar(f.items, bounds));
    forall v: nat
      ensures Keeps(Rewritten(f, bounds), StepOf(f.step), v) <==> Denotes(f, bounds, v)
    {
      RewrittenMeans(f, bounds, v);
    }
  }

  // ---- texts outside the grammar ----------------------------------------------------------------

  /** A step is what follows the last slash, if that is letters, digits and underscores and something on one line comes
      before it. */
  lemma StepIsAWord(values: string, base: string)
    requires values != "" && OneLine(values) && '/' !in base
    ensures StepPattern(values + ("/" + base))
            == if base != "" && forall i :: 0 <= i < |base| ==> IsLetter(base[i]) || IsDigit(base[i]) || base[i] == '_'
               then Some((values, base)) else None
  {
    SlashFound(values, base);
    SlashParts(values, base);
  }

  /** The text starts with a number within the limits. */
  predicate NumberWithin(s: string, min: int, max: int) {
    ParseInt(s).Some? && ParseInt(s).value >= 0 && min <= ParseInt(s).value <= max
  }

  lemma IntegerOption(v: int, min: int, max: int)
    ensures OptionOk(IntToString(v), min, max) <==> v >= 0 && min <= v <= max
    ensures ',' !in IntToString(v)
  {
    ParseIntToString(v);
    ToStringDigits(if v < 0 then 0 - v else v);
    if v < 0 {
      assert IntToString(v)[0] == '-' && !IsDigit('-');
      assert !Permitted(IntToString(v));
    }
  }

  lemma NormalOption(s: string, min: int, max: int)
    ensures OptionOk(NormalNumber(s), min, max) <==> NumberWithin(s, min, max)
    ensures ',' !in NormalNumber(s)
  {
    match ParseInt(s)
    case None =>
      assert "NaN"[0] == 'N' && "NaN"[1] == 'a';
    case Some(v) =>
      IntegerOption(v, min, max);
  }

  /** GARBAGE IS REFUSED: whatever the text of a field, once its numbers are rewritten it is accepted if and only if
      each of its parts starts with a number, and that number is not negative and within the limits. */
  lemma {:induction false} NormalizedValid(t: string, min: int, max: int)
    ensures IsValid(Normalize(t), min, max) <==>
            forall i :: 0 <= i < |Split(t, ',')| ==> NumberWithin(Split(t, ',')[i], min, max)
  {
    var parts := Split(t, ',');
    var numbers := NormalNumbers(parts);
    forall i | 0 <= i < |parts|
      ensures OptionOk(numbers[i], min, max) <==> NumberWithin(parts[i], min, max)
      ensures ',' !in numbers[i]
    {
      NormalOption(parts[i], min, max);
    }
    SplitJoin(numbers, ',');
  }
}
