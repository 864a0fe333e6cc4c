/**
 FORMAT_* and PARSE_* for the numeric specifiers %Y %m %d %H %M %S %F %T %R
 (internal/function_time_parser.go): what is printed, and what is read back, in UTC.
 */
module TimeFormat {
  import opened Wrappers
  import opened Decimal
  import opened Calendar

  /** A UTC time: its day, counted from 0001-01-01, and its clock. */
  datatype Stamp = Stamp(day: int, hour: nat, minute: nat, second: nat, nanos: nat)

  predicate Proper(t: Stamp) {
    1 <= YearOf(t) <= 9999 && t.hour < 24 && t.minute < 60 && t.second < 60
  }

  function YearOf(t: Stamp): int {
    Year(Time(t.day, 0))
  }

  function MonthNumber(t: Stamp): (m: nat)
    ensures 1 <= m <= 12
  {
    Month(Time(t.day, 0))
  }

  function DayNumber(t: Stamp): (d: nat)
    ensures 1 <= d <= 31
  {
    Day(Time(t.day, 0))
  }

  /** `time.Unix(0, 0)`. */
  const EPOCH: Stamp := Stamp(719162, 0, 0, 0, 0)

  // ----- specifiers -----

  datatype Field = YearField | MonthField | DayField | HourField | MinuteField | SecondField

  datatype FormatType = DateFormat | DatetimeFormat | TimeFormat | TimestampFormat

  /** A parser is a number with its range, or a fixed text. */
  datatype Step = Number(field: Field, min: nat, max: nat) | Static(text: string)

  const YEAR_STEP := Number(YearField, 1, 9999)
  const MONTH_STEP := Number(MonthField, 1, 12)
  const DAY_STEP := Number(DayField, 1, 31)
  const HOUR_STEP := Number(HourField, 0, 23)
  const MINUTE_STEP := Number(MinuteField, 0, 59)
  const SECOND_STEP := Number(SecondField, 0, 59)

  predicate IsDateSpec(c: char) {
    c in {'Y', 'm', 'd', 'F'}
  }

  predicate IsSpec(c: char) {
    IsDateSpec(c) || c in {'H', 'M', 'S', 'T', 'R'}
  }

  predicate Available(c: char, typ: FormatType) {
    if IsDateSpec(c) then typ != TimeFormat else typ != DateFormat
  }

  function StepsOf(c: char): seq<Step>
    requires IsSpec(c)
  {
    match c
    case 'Y' => [YEAR_STEP]
    case 'm' => [MONTH_STEP]
    case 'd' => [DAY_STEP]
    case 'H' => [HOUR_STEP]
    case 'M' => [MINUTE_STEP]
    case 'S' => [SECOND_STEP]
    case 'F' => [YEAR_STEP, Static("-"), MONTH_STEP, Static("-"), DAY_STEP]
    case 'T' => [HOUR_STEP, Static(":"), MINUTE_STEP, Static(":"), SECOND_STEP]
    case _ => [HOUR_STEP, Static(":"), MINUTE_STEP]
  }

  /** Every number is stored through `time.Date`, which normalises what does not fit together. */
  function Store(t: Stamp, field: Field, v: nat): Stamp {
    match field
    case YearField => t.(day := MakeDate(v, MonthNumber(t), DayNumber(t)).day)
    case MonthField => t.(day := MakeDate(YearOf(t), v, DayNumber(t)).day)
    case DayField => t.(day := MakeDate(YearOf(t), MonthNumber(t), v).day)
    case HourField => t.(hour := v)
    case MinuteField => t.(minute := v)
    case SecondField => t.(second := v)
  }

  // ----- reading -----

  /** The places of the largest value. */
  function Places(max: nat): nat {
    |Digits(max)|
  }

  function LeadingDigits(text: string, limit: nat): (n: nat)
    ensures n <= |text| && n <= limit && AllDigits(text[..n])
  {
    if limit == 0 || text == "" || !IsDigit(text[0]) then 0
    else
      var n := 1 + LeadingDigits(text[1..], limit - 1);
      assert text[..n] == [text[0]] + text[1..][..n - 1];
      n
  }

  /** `parseDigitRespectingOptionalPlaces`: how many characters were read, and the number they make. */
  function ReadNumber(text: string, min: nat, max: nat): (r: Result<(nat, nat)>)
    ensures r.Ok? ==> 0 < r.value.0 <= |text|
  {
    var n := LeadingDigits(text, Places(max));
    if n == 0 then Err("leading character is not a digit")
    else
      var v := ParseDigits(text[..n]);
      if v > max then Err("part is greater than maximum value")
      else if v < min then Err("part is less than minimum value")
      else Ok((n, v))
  }

  function RunStep(step: Step, text: string, t: Stamp): (r: Result<(nat, Stamp)>)
    ensures r.Ok? ==> r.value.0 <= |text|
  {
    match step
    case Static(s) => if |text| < |s| || text[..|s|] != s then Err("text not found") else Ok((|s|, t))
    case Number(field, min, max) =>
      match ReadNumber(text, min, max)
      case Err(e) => Err(e)
      case Ok((n, v)) => Ok((n, Store(t, field, v)))
  }

  /** `composeParseFunctions`. */
  function RunSteps(steps: seq<Step>, text: string, t: Stamp): (r: Result<(nat, Stamp)>)
    ensures r.Ok? ==> r.value.0 <= |text|
  {
    if steps == [] then Ok((0, t))
    else
      match RunStep(steps[0], text, t)
      case Err(e) => Err(e)
      case Ok((n, s)) =>
        match RunSteps(steps[1..], text[n..], s)
        case Err(e) => Err(e)
        case Ok((k, u)) => Ok((n + k, u))
  }

  function Spaces(text: string, i: nat): (n: nat)
    ensures i <= |text| ==> i + n <= |text|
    decreases |text| - i
  {
    if i < |text| && text[i] == ' ' then 1 + Spaces(text, i + 1) else 0
  }

  /** `parseTimeFormat` from a position in the text, which a literal may move past the end. */
  function ParseFrom(format: string, text: string, i: nat, typ: FormatType, t: Stamp): Result<Stamp>
    decreases |format|
  {
    if format == "" then
      if i == |text| then Ok(t) else Err("found unparsed text")
    else if format[0] == '%' then
      if |format| == 1 then Err("invalid time format")
      else if !IsSpec(format[1]) then Err("unexpected format type")
      else if !Available(format[1], typ) then Err("unavailable format")
      else if i >= |text| then Err("invalid target text")
      else
        match RunSteps(StepsOf(format[1]), text[i..], t)
        case Err(e) => Err(e)
        case Ok((n, s)) => ParseFrom(format[2..], text, i + n, typ, s)
    else if format[0] == ' ' then ParseFrom(format[1..], text, i + Spaces(text, i), typ, t)
    else ParseFrom(format[1..], text, i + 1, typ, t)
  }

  function Parse(format: string, text: string, typ: FormatType): Result<Stamp> {
    ParseFrom(format, text, 0, typ, EPOCH)
  }

  // ----- printing -----

  function Two(n: nat): (s: string)
    requires n < 100
    ensures |s| == 2 && AllDigits(s)
  {
    [DigitChar(n / 10), DigitChar(n % 10)]
  }

  function Four(n: nat): (s: string)
    requires n < 10000
    ensures |s| == 4 && AllDigits(s)
  {
    Two(n / 100) + Two(n % 100)
  }

  function PrintSpec(c: char, t: Stamp): (s: string)
    requires IsSpec(c) && Proper(t)
    ensures s != "" && s[0] != ' '
  {
    match c
    case 'Y' => Digits(YearOf(t))
    case 'm' => Two(MonthNumber(t))
    case 'd' => Two(DayNumber(t))
    case 'H' => Two(t.hour)
    case 'M' => Two(t.minute)
    case 'S' => Two(t.second)
    case 'F' => Four(YearOf(t)) + ("-" + (Two(MonthNumber(t)) + ("-" + Two(DayNumber(t)))))
    case 'T' => Two(t.hour) + (":" + (Two(t.minute) + (":" + Two(t.second))))
    case _ => Two(t.hour) + (":" + Two(t.minute))
  }

  /** `formatTime`. */
  function Print(format: string, t: Stamp, typ: FormatType): Result<string>
    requires Proper(t)
    decreases |format|
  {
    if format == "" then Ok("")
    else if format[0] == '%' then
      if |format| == 1 then Err("invalid time format")
      else if !IsSpec(format[1]) then Err("unexpected format type")
      else if !Available(format[1], typ) then Err("unavailable format")
      else
        match Print(format[2..], t, typ)
        case Err(e) => Err(e)
        case Ok(s) => Ok(PrintSpec(format[1], t) + s)
    else
      match Print(format[1..], t, typ)
      case Err(e) => Err(e)
      case Ok(s) => Ok([format[0]] + s)
  }

  // ----- one number -----

  lemma ParseTwo(n: nat)
    requires n < 100
    ensures ParseDigits(Two(n)) == n
  {
    DigitReadsBack(n / 10);
    DigitReadsBack(n % 10);
    assert Two(n)[..1] == [DigitChar(n / 10)];
    assert [DigitChar(n / 10)][..0] == [];
    assert ParseDigits([DigitChar(n / 10)]) == n / 10;
  }

  lemma DigitReadsBack(d: nat)
    requires d < 10
    ensures DigitValue(DigitChar(d)) == d
  {
  }

  lemma ParseFour(n: nat)
    requires n < 10000
    ensures ParseDigits(Four(n)) == n
  {
    var a, b := n / 100, n % 100;
    var s := Four(n);
    ParseTwo(a);
    assert s[..3] == Two(a) + [DigitChar(b / 10)];
    assert s[..3][..2] == Two(a);
    DigitReadsBack(b / 10);
    DigitReadsBack(b % 10);
    assert ParseDigits(s[..3]) == 10 * a + b / 10;
  }

  /** As many digits are read as there are, up to the places. */
  lemma {:induction false} LeadingDigitsAre(d: string, rest: string, limit: nat)
    requires AllDigits(d) && |d| <= limit
    requires |d| == limit || rest == "" || !IsDigit(rest[0])
    ensures LeadingDigits(d + rest, limit) == |d|
  {
    if d == "" {
      assert d + rest == rest;
    } else {
      assert (d + rest)[1..] == d[1..] + rest;
      LeadingDigitsAre(d[1..], rest, limit - 1);
    }
  }

  lemma ReadsNumber(d: string, rest: string, v: nat, min: nat, max: nat)
    requires d != "" && AllDigits(d) && ParseDigits(d) == v && min <= v <= max && |d| <= Places(max)
    requires |d| == Places(max) || rest == "" || !IsDigit(rest[0])
    ensures ReadNumber(d + rest, min, max) == Ok((|d|, v))
  {
    LeadingDigitsAre(d, rest, Places(max));
    assert (d + rest)[..|d|] == d;
  }

  lemma TwoPlaces()
    ensures Places(12) == Places(31) == Places(23) == Places(59) == 2 && Places(9999) == 4
  {
    assert |Digits(1)| == |Digits(3)| == |Digits(2)| == |Digits(5)| == |Digits(9)| == 1;
    assert |Digits(99)| == 2;
    assert |Digits(999)| == 3;
  }

  lemma DigitsStep(n: nat)
    ensures |Digits(n)| == if n < 10 then 1 else |Digits(n / 10)| + 1
  {
  }

  lemma DigitsLength(n: nat)
    requires n < 10000
    ensures |Digits(n)| <= 4 && (n >= 1000 ==> |Digits(n)| == 4)
  {
    DigitsStep(n);
    DigitsStep(n / 10);
    DigitsStep(n / 10 / 10);
    DigitsStep(n / 10 / 10 / 10);
  }

  // ----- one specifier -----

  predicate NextIsNoDigit(rest: string) {
    rest == "" || !IsDigit(rest[0])
  }

  /** The value a field has in a time. */
  function ValueOf(field: Field, t: Stamp): nat
    requires Proper(t)
  {
    match field
    case YearField => YearOf(t)
    case MonthField => MonthNumber(t)
    case DayField => DayNumber(t)
    case HourField => t.hour
    case MinuteField => t.minute
    case SecondField => t.second
  }

  function StoreFrom(s: Stamp, field: Field, t: Stamp): Stamp
    requires Proper(t)
  {
    Store(s, field, ValueOf(field, t))
  }

  lemma ReadsTwo(step: Step, t: Stamp, rest: string, s: Stamp)
    requires Proper(t) && step in {MONTH_STEP, DAY_STEP, HOUR_STEP, MINUTE_STEP, SECOND_STEP}
    ensures RunStep(step, Two(ValueOf(step.field, t)) + rest, s) == Ok((2, StoreFrom(s, step.field, t)))
  {
    TwoPlaces();
    ParseTwo(ValueOf(step.field, t));
    ReadsNumber(Two(ValueOf(step.field, t)), rest, ValueOf(step.field, t), step.min, step.max);
  }

  lemma ReadsStatic(c: char, rest: string, s: Stamp)
    ensures RunStep(Static([c]), [c] + rest, s) == Ok((1, s))
  {
  }

  lemma Continue(step: Step, steps: seq<Step>, text: string, rest: string, s: Stamp, n: nat, u: Stamp)
    requires RunStep(step, text + rest, s) == Ok((|text|, u))
    requires RunSteps(steps, rest, u).Ok? && RunSteps(steps, rest, u).value.0 == n
    ensures RunSteps([step] + steps, text + rest, s) == Ok((|text| + n, RunSteps(steps, rest, u).value.1))
  {
    assert ([step] + steps)[1..] == steps;
    assert (text + rest)[|text|..] == rest;
  }

  lemma LastStep(step: Step, text: string, rest: string, s: Stamp, u: Stamp)
    requires RunStep(step, text + rest, s) == Ok((|text|, u))
    ensures RunSteps([step], text + rest, s) == Ok((|text|, u))
  {
    assert [step][1..] == [];
    assert RunSteps([], (text + rest)[|text|..], u) == Ok((0, u));
  }

  /** A two-digit number, a separator and more. */
  lemma ReadsTwoThen(step: Step, c: char, steps: seq<Step>, t: Stamp, text: string, s: Stamp, n: nat)
    requires Proper(t) && step in {MONTH_STEP, DAY_STEP, HOUR_STEP, MINUTE_STEP, SECOND_STEP}
    requires
      var r := RunSteps(steps, text, StoreFrom(s, step.field, t));
      r.Ok? && r.value.0 == n
    ensures
      RunSteps([step, Static([c])] + steps, Two(ValueOf(step.field, t)) + ([c] + text), s)
      == Ok((3 + n, RunSteps(steps, text, StoreFrom(s, step.field, t)).value.1))
  {
    hide RunSteps, RunStep, StoreFrom, Digits;
    var u := StoreFrom(s, step.field, t);
    ReadsTwo(step, t, [c] + text, s);
    ReadsStatic(c, text, u);
    Continue(Static([c]), steps, [c], text, u, n, u);
    Continue(step, [Static([c])] + steps, Two(ValueOf(step.field, t)), [c] + text, s, 1 + n, u);
    assert [step] + ([Static([c])] + steps) == [step, Static([c])] + steps;
  }

  /** What reading a specifier's own print stores. */
  function StoreSpec(c: char, t: Stamp, s: Stamp): Stamp
    requires IsSpec(c) && Proper(t)
  {
    match c
    case 'Y' => StoreFrom(s, YearField, t)
    case 'm' => StoreFrom(s, MonthField, t)
    case 'd' => StoreFrom(s, DayField, t)
    case 'H' => StoreFrom(s, HourField, t)
    case 'M' => StoreFrom(s, MinuteField, t)
    case 'S' => StoreFrom(s, SecondField, t)
    case 'F' => StoreFrom(StoreFrom(StoreFrom(s, YearField, t), MonthField, t), DayField, t)
    case 'T' => StoreFrom(StoreFrom(StoreFrom(s, HourField, t), MinuteField, t), SecondField, t)
    case _ => StoreFrom(StoreFrom(s, HourField, t), MinuteField, t)
  }

  lemma ReadsOwnYear(t: Stamp, rest: string, s: Stamp)
    requires Proper(t) && (YearOf(t) >= 1000 || NextIsNoDigit(rest))
    ensures RunSteps([YEAR_STEP], Digits(YearOf(t)) + rest, s) == Ok((|Digits(YearOf(t))|, StoreFrom(s, YearField, t)))
  {
    var y := YearOf(t);
    TwoPlaces();
    DigitsLength(y);
    ParseDigitsInverts(y);
    ReadsNumber(Digits(y), rest, y, 1, 9999);
    LastStep(YEAR_STEP, Digits(y), rest, s, StoreFrom(s, YearField, t));
  }

  lemma ReadsOwnPair(first: Step, second: Step, c: char, t: Stamp, rest: string, s: Stamp)
    requires Proper(t) && {first, second} <= {MONTH_STEP, DAY_STEP, HOUR_STEP, MINUTE_STEP, SECOND_STEP}
    ensures
      RunSteps([first, Static([c]), second],
               Two(ValueOf(first.field, t)) + ([c] + (Two(ValueOf(second.field, t)) + rest)), s)
      == Ok((5, StoreFrom(StoreFrom(s, first.field, t), second.field, t)))
  {
    var u := StoreFrom(s, first.field, t);
    ReadsTwo(second, t, rest, u);
    LastStep(second, Two(ValueOf(second.field, t)), rest, u, StoreFrom(u, second.field, t));
    ReadsTwoThen(first, c, [second], t, Two(ValueOf(second.field, t)) + rest, s, 2);
    assert [first, Static([c])] + [second] == [first, Static([c]), second];
  }

  lemma ReadsOwnDate(t: Stamp, rest: string, s: Stamp)
    requires Proper(t)
    ensures
      RunSteps(StepsOf('F'), Four(YearOf(t)) + ("-" + (Two(MonthNumber(t)) + ("-" + (Two(DayNumber(t)) + rest)))), s)
      == Ok((10, StoreSpec('F', t, s)))
  {
    var y := YearOf(t);
    var u := StoreFrom(s, YearField, t);
    var monthDay := Two(MonthNumber(t)) + ("-" + (Two(DayNumber(t)) + rest));
    TwoPlaces();
    ParseFour(y);
    ReadsNumber(Four(y), "-" + monthDay, y, 1, 9999);
    ReadsOwnPair(MONTH_STEP, DAY_STEP, '-', t, rest, u);
    ReadsStatic('-', monthDay, u);
    Continue(Static("-"), [MONTH_STEP, Static("-"), DAY_STEP], "-", monthDay, u, 5, u);
    Continue(YEAR_STEP, [Static("-"), MONTH_STEP, Static("-"), DAY_STEP], Four(y), "-" + monthDay, s, 6, u);
    assert [Static("-")] + [MONTH_STEP, Static("-"), DAY_STEP] == [Static("-"), MONTH_STEP, Static("-"), DAY_STEP];
    assert [YEAR_STEP] + [Static("-"), MONTH_STEP, Static("-"), DAY_STEP] == StepsOf('F');
  }

  lemma ReadsOwnClock(t: Stamp, rest: string, s: Stamp)
    requires Proper(t)
    ensures
      RunSteps(StepsOf('T'), Two(t.hour) + (":" + (Two(t.minute) + (":" + (Two(t.second) + rest)))), s)
      == Ok((8, StoreSpec('T', t, s)))
  {
    ReadsOwnPair(MINUTE_STEP, SECOND_STEP, ':', t, rest, StoreFrom(s, HourField, t));
    ReadsTwoThen(HOUR_STEP, ':', [MINUTE_STEP, Static(":"), SECOND_STEP], t,
                 Two(t.minute) + (":" + (Two(t.second) + rest)), s, 5);
    assert [HOUR_STEP, Static(":")] + [MINUTE_STEP, Static(":"), SECOND_STEP] == StepsOf('T');
  }

  /** Each specifier reads exactly what it prints; %Y needs four digits or no digit after it. */
  lemma ReadsOwnPrint(c: char, t: Stamp, rest: string, s: Stamp)
    requires IsSpec(c) && Proper(t) && (c == 'Y' ==> YearOf(t) >= 1000 || NextIsNoDigit(rest))
    ensures RunSteps(StepsOf(c), PrintSpec(c, t) + rest, s) == Ok((|PrintSpec(c, t)|, StoreSpec(c, t, s)))
  {
    if c == 'Y' {
      ReadsOwnYear(t, rest, s);
    } else if c in {'F', 'T', 'R'} {
      ReadsOwnGroup(c, t, rest, s);
    } else {
      ReadsOwnNumber(c, t, rest, s);
    }
  }

  lemma ReadsOwnNumber(c: char, t: Stamp, rest: string, s: Stamp)
    requires c in {'m', 'd', 'H', 'M', 'S'} && Proper(t)
    ensures RunSteps(StepsOf(c), PrintSpec(c, t) + rest, s) == Ok((2, StoreSpec(c, t, s)))
  {
    var step := StepsOf(c)[0];
    ReadsTwo(step, t, rest, s);
    LastStep(step, Two(ValueOf(step.field, t)), rest, s, StoreFrom(s, step.field, t));
  }

  lemma Assoc(a: string, b: string, c: string)
    ensures (a + b) + c == a + (b + c)
  {
  }

  lemma PrintedDate(t: Stamp, rest: string)
    requires Proper(t)
    ensures PrintSpec('F', t) + rest
         == Four(YearOf(t)) + ("-" + (Two(MonthNumber(t)) + ("-" + (Two(DayNumber(t)) + rest))))
  {
    var m, d := Two(MonthNumber(t)), Two(DayNumber(t));
    Assoc("-", d, rest);
    Assoc(m, "-" + d, rest);
    Assoc("-", m + ("-" + d), rest);
    Assoc(Four(YearOf(t)), "-" + (m + ("-" + d)), rest);
  }

  lemma PrintedClock(t: Stamp, rest: string)
    requires Proper(t)
    ensures PrintSpec('T', t) + rest == Two(t.hour) + (":" + (Two(t.minute) + (":" + (Two(t.second) + rest))))
    ensures PrintSpec('R', t) + rest == Two(t.hour) + (":" + (Two(t.minute) + rest))
  {
    var m, s := Two(t.minute), Two(t.second);
    Assoc(":", s, rest);
    Assoc(m, ":" + s, rest);
    Assoc(":", m + (":" + s), rest);
    Assoc(Two(t.hour), ":" + (m + (":" + s)), rest);
    Assoc(":", m, rest);
    Assoc(Two(t.hour), ":" + m, rest);
  }

  lemma ReadsOwnGroup(c: char, t: Stamp, rest: string, s: Stamp)
    requires c in {'F', 'T', 'R'} && Proper(t)
    ensures RunSteps(StepsOf(c), PrintSpec(c, t) + rest, s) == Ok((|PrintSpec(c, t)|, StoreSpec(c, t, s)))
  {
    PrintedDate(t, rest);
    PrintedClock(t, rest);
    if c == 'F' {
      ReadsOwnDate(t, rest, s);
    } else if c == 'T' {
      ReadsOwnClock(t, rest, s);
    } else {
      ReadsOwnPair(HOUR_STEP, MINUTE_STEP, ':', t, rest, s);
    }
  }
}
