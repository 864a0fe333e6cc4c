/**
 Parsing what was printed (internal/function_time_parser.go:1117-1262) always succeeds and consumes all the text;
 and which formats restore every printed field, February 29th included.
 */
module TimeRoundTrip {
  import opened Wrappers
  import opened Decimal
  import opened Calendar
  import opened TimeFormat

  // ----- the text is read back -----

  /** What parsing a format's own print stores, specifier by specifier. */
  function Stores(format: string, t: Stamp, s: Stamp): Stamp
    requires Proper(t)
    decreases |format|
  {
    if format == "" then s
    else if format[0] == '%' && |format| >= 2 && IsSpec(format[1]) then
      Stores(format[2..], t, StoreSpec(format[1], t, s))
    else Stores(format[1..], t, s)
  }

  /** %Y prints no padding: unless the year has four digits, no digit may follow it. */
  predicate YearsDelimited(format: string, t: Stamp)
    decreases |format|
  {
    if format == "" then true
    else if format[0] == '%' && |format| >= 2 then
      && (format[1] == 'Y' ==> YearOf(t) >= 1000 || |format| == 2 || (format[2] != '%' && !IsDigit(format[2])))
      && YearsDelimited(format[2..], t)
    else YearsDelimited(format[1..], t)
  }

  function Strip(s: string): string {
    if s != "" && s[0] == ' ' then Strip(s[1..]) else s
  }

  lemma {:induction false} StripTwice(s: string)
    ensures Strip(Strip(s)) == Strip(s)
  {
    if s != "" && s[0] == ' ' {
      StripTwice(s[1..]);
    }
  }

  lemma {:induction false} SpacesStrip(text: string, i: nat)
    requires i <= |text|
    ensures text[i + Spaces(text, i)..] == Strip(text[i..])
    decreases |text| - i
  {
    if i < |text| && text[i] == ' ' {
      SpacesStrip(text, i + 1);
      assert text[i..][1..] == text[i + 1..];
    }
  }

  /** The rest of the text is the print of the rest of the format, less spaces already slurped. */
  predicate Remains(text: string, i: nat, p: string) {
    i <= |text| && (text[i..] == p || text[i..] == Strip(p))
  }

  lemma SpaceStep(text: string, i: nat, rest: string)
    requires Remains(text, i, [' '] + rest)
    ensures Remains(text, i + Spaces(text, i), rest)
  {
    SpacesStrip(text, i);
    StripTwice(rest);
    assert ([' '] + rest)[1..] == rest;
    assert Strip([' '] + rest) == Strip(rest);
  }

  lemma LiteralStep(text: string, i: nat, c: char, rest: string)
    requires c != ' ' && Remains(text, i, [c] + rest)
    ensures Remains(text, i + 1, rest)
  {
    assert text[i..] == [c] + rest;
    assert text[i + 1..] == text[i..][1..];
  }

  lemma {:induction false} ReadsBack(format: string, t: Stamp, typ: FormatType, text: string, i: nat, s: Stamp)
    requires Proper(t) && YearsDelimited(format, t) && Print(format, t, typ).Ok?
    requires Remains(text, i, Print(format, t, typ).value)
    ensures ParseFrom(format, text, i, typ, s) == Ok(Stores(format, t, s))
    decreases |format|, 1
  {
    if format == "" {
      assert i == |text|;
    } else if format[0] == '%' {
      ReadsSpecThenRest(format, t, typ, text, i, s);
    } else {
      ReadsLiteralThenRest(format, t, typ, text, i, s);
    }
  }

  lemma {:induction false} ReadsSpecThenRest(
    format: string, t: Stamp, typ: FormatType, text: string, i: nat, s: Stamp)
    requires Proper(t) && YearsDelimited(format, t) && Print(format, t, typ).Ok? && format != "" && format[0] == '%'
    requires Remains(text, i, Print(format, t, typ).value)
    ensures ParseFrom(format, text, i, typ, s) == Ok(Stores(format, t, s))
    decreases |format|, 0
  {
    hide RunSteps, StepsOf, PrintSpec, StoreSpec, Spaces, ParseFrom, Stores, Print, YearsDelimited;
    PrintSpecFirst(format, t, typ);
    DelimitedRest(format, t);
    var c, rest := format[1], Print(format[2..], t, typ).value;
    var own, u := PrintSpec(c, t), StoreSpec(c, t, s);
    ReadsSpec(format, t, typ, text, i, s, own, rest);
    StoresSpec(format, t, s);
    ReadsBack(format[2..], t, typ, text, i + |own|, u);
  }

  lemma DelimitedRest(format: string, t: Stamp)
    requires YearsDelimited(format, t) && |format| >= 2 && format[0] == '%'
    ensures YearsDelimited(format[2..], t)
  {
  }

  lemma {:induction false} ReadsLiteralThenRest(
    format: string, t: Stamp, typ: FormatType, text: string, i: nat, s: Stamp)
    requires Proper(t) && YearsDelimited(format, t) && Print(format, t, typ).Ok? && format != "" && format[0] != '%'
    requires Remains(text, i, Print(format, t, typ).value)
    ensures ParseFrom(format, text, i, typ, s) == Ok(Stores(format, t, s))
    decreases |format|, 0
  {
    hide RunSteps, StepsOf, PrintSpec, StoreSpec, Spaces;
    var rest := Print(format[1..], t, typ).value;
    if format[0] == ' ' {
      SpaceStep(text, i, rest);
      ReadsBack(format[1..], t, typ, text, i + Spaces(text, i), s);
    } else {
      LiteralStep(text, i, format[0], rest);
      ReadsBack(format[1..], t, typ, text, i + 1, s);
    }
  }

  /** Parsing one specifier moves on to the rest of the format. */
  lemma ParseSpec(format: string, typ: FormatType, text: string, i: nat, s: Stamp, n: nat, u: Stamp)
    requires |format| >= 2 && format[0] == '%' && IsSpec(format[1]) && Available(format[1], typ) && i < |text|
    requires RunSteps(StepsOf(format[1]), text[i..], s) == Ok((n, u))
    ensures ParseFrom(format, text, i, typ, s) == ParseFrom(format[2..], text, i + n, typ, u)
  {
  }

  /** The print of a specifier, and what follows it. */
  lemma PrintSpecFirst(format: string, t: Stamp, typ: FormatType)
    requires Proper(t) && YearsDelimited(format, t) && Print(format, t, typ).Ok? && format != "" && format[0] == '%'
    ensures |format| >= 2 && IsSpec(format[1]) && Available(format[1], typ) && Print(format[2..], t, typ).Ok?
    ensures Print(format, t, typ).value == PrintSpec(format[1], t) + Print(format[2..], t, typ).value
    ensures format[1] == 'Y' ==> YearOf(t) >= 1000 || NextIsNoDigit(Print(format[2..], t, typ).value)
  {
    assert |format| > 2 ==> format[2..][0] == format[2];
  }

  lemma TextAfter(text: string, i: nat, own: string, rest: string)
    requires own != "" && own[0] != ' ' && Remains(text, i, own + rest)
    ensures text[i..] == own + rest && i < |text| && Remains(text, i + |own|, rest)
  {
    assert (own + rest)[0] == own[0];
    assert text[i..] == own + rest;
    assert text[i + |own|..] == text[i..][|own|..] == rest;
  }

  lemma StoresSpec(format: string, t: Stamp, s: Stamp)
    requires Proper(t) && |format| >= 2 && format[0] == '%' && IsSpec(format[1])
    ensures Stores(format, t, s) == Stores(format[2..], t, StoreSpec(format[1], t, s))
  {
  }

  /** Reading the print of a format's first specifier leaves the rest of both. */
  lemma ReadsSpec(
    format: string, t: Stamp, typ: FormatType, text: string, i: nat, s: Stamp, own: string, rest: string)
    requires Proper(t) && |format| >= 2 && format[0] == '%' && IsSpec(format[1]) && Available(format[1], typ)
    requires own == PrintSpec(format[1], t) && Remains(text, i, own + rest)
    requires format[1] == 'Y' ==> YearOf(t) >= 1000 || NextIsNoDigit(rest)
    ensures Remains(text, i + |own|, rest)
    ensures ParseFrom(format, text, i, typ, s)
         == ParseFrom(format[2..], text, i + |own|, typ, StoreSpec(format[1], t, s))
  {
    TextAfter(text, i, own, rest);
    ReadsOwnPrint(format[1], t, rest, s);
    ParseSpec(format, typ, text, i, s, |own|, StoreSpec(format[1], t, s));
  }

  // ----- the fields are restored -----

  function FieldsOf(c: char): set<Field>
    requires IsSpec(c)
  {
    match c
    case 'Y' => {YearField}
    case 'm' => {MonthField}
    case 'd' => {DayField}
    case 'H' => {HourField}
    case 'M' => {MinuteField}
    case 'S' => {SecondField}
    case 'F' => {YearField, MonthField, DayField}
    case 'T' => {HourField, MinuteField, SecondField}
    case _ => {HourField, MinuteField}
  }

  function Printed(format: string): set<Field>
    decreases |format|
  {
    if format == "" then {}
    else if format[0] == '%' && |format| >= 2 && IsSpec(format[1]) then FieldsOf(format[1]) + Printed(format[2..])
    else Printed(format[1..])
  }

  predicate Sound(seen: set<Field>) {
    {MonthField, DayField} <= seen ==> YearField in seen
  }

  /** At no point have a month and a day been read, but no year. */
  predicate Safe(format: string, seen: set<Field>)
    decreases |format|
  {
    if format == "" then true
    else if format[0] == '%' && |format| >= 2 && IsSpec(format[1]) then
      Sound(seen + FieldsOf(format[1])) && Safe(format[2..], seen + FieldsOf(format[1]))
    else Safe(format[1..], seen)
  }

  /** The epoch with some of a time's fields. */
  function Mixed(t: Stamp, seen: set<Field>): Stamp {
    Stamp(MakeDate(if YearField in seen then YearOf(t) else 1970,
                   if MonthField in seen then MonthNumber(t) else 1,
                   if DayField in seen then DayNumber(t) else 1).day,
          if HourField in seen then t.hour else 0,
          if MinuteField in seen then t.minute else 0,
          if SecondField in seen then t.second else 0,
          0)
  }

  predicate LeapDay(t: Stamp) {
    MonthNumber(t) == 2 && DayNumber(t) == 29
  }

  /** Every date but February 29th exists in 1970, and with its year every date does. */
  predicate Fine(t: Stamp, seen: set<Field>) {
    Sound(seen) || !LeapDay(t)
  }

  /** Only February depends on the year. */
  lemma MonthLengthsInAnyYear(a: int, b: int, m: nat)
    requires 1 <= m <= 12
    ensures m != 2 ==> MonthLength(12 * a + m - 1) == MonthLength(12 * b + m - 1)
    ensures m == 2 ==> MonthLength(12 * a + m - 1) == if Leap(a) then 29 else 28
  {
    assert (12 * a + m - 1) % 12 == m - 1 && (12 * a + m - 1) / 12 == a;
    assert (12 * b + m - 1) % 12 == m - 1 && (12 * b + m - 1) / 12 == b;
  }

  lemma MixedReadsBack(t: Stamp, seen: set<Field>)
    requires Fine(t, seen)
    ensures YearOf(Mixed(t, seen)) == if YearField in seen then YearOf(t) else 1970
    ensures MonthNumber(Mixed(t, seen)) == if MonthField in seen then MonthNumber(t) else 1
    ensures DayNumber(Mixed(t, seen)) == if DayField in seen then DayNumber(t) else 1
  {
    var y := if YearField in seen then YearOf(t) else 1970;
    var m := if MonthField in seen then MonthNumber(t) else 1;
    var d := if DayField in seen then DayNumber(t) else 1;
    assert 12 * YearOf(t) + MonthNumber(t) - 1 == MonthOf(t.day);
    assert (12 * y + 1 - 1) % 12 == 0;
    MonthLengthsInAnyYear(YearOf(t), y, m);
    assert d <= MonthLength(12 * y + m - 1);
    DateReadsBack(y, m, d);
  }

  lemma StoreMixed(t: Stamp, seen: set<Field>, field: Field)
    requires Proper(t) && Fine(t, seen)
    ensures StoreFrom(Mixed(t, seen), field, t) == Mixed(t, seen + {field})
  {
    MixedReadsBack(t, seen);
  }

  lemma StoreSpecMixed(c: char, t: Stamp, seen: set<Field>)
    requires Proper(t) && IsSpec(c) && Fine(t, seen)
    ensures StoreSpec(c, t, Mixed(t, seen)) == Mixed(t, seen + FieldsOf(c))
  {
    hide StoreFrom, Mixed;
    if c == 'F' {
      StoreMixed(t, seen, YearField);
      StoreMixed(t, seen + {YearField}, MonthField);
      StoreMixed(t, seen + {YearField} + {MonthField}, DayField);
      assert seen + FieldsOf(c) == seen + {YearField} + {MonthField} + {DayField};
    } else if c == 'T' || c == 'R' {
      StoreMixed(t, seen, HourField);
      StoreMixed(t, seen + {HourField}, MinuteField);
      StoreMixed(t, seen + {HourField} + {MinuteField}, SecondField);
      assert seen + FieldsOf('T') == seen + {HourField} + {MinuteField} + {SecondField};
      assert seen + FieldsOf('R') == seen + {HourField} + {MinuteField};
    } else {
      StoreMixed(t, seen, StepsOf(c)[0].field);
    }
  }

  lemma {:induction false} OrdinaryStores(format: string, t: Stamp, seen: set<Field>)
    requires Proper(t) && Fine(t, seen) && !LeapDay(t)
    ensures Stores(format, t, Mixed(t, seen)) == Mixed(t, seen + Printed(format)) && Fine(t, seen + Printed(format))
    decreases |format|
  {
    if format == "" {
      assert seen + {} == seen;
    } else if format[0] == '%' && |format| >= 2 && IsSpec(format[1]) {
      StoreSpecMixed(format[1], t, seen);
      OrdinaryStores(format[2..], t, seen + FieldsOf(format[1]));
      assert seen + Printed(format) == seen + FieldsOf(format[1]) + Printed(format[2..]);
    } else {
      OrdinaryStores(format[1..], t, seen);
    }
  }

  predicate Agrees(field: Field, s: Stamp, t: Stamp) {
    match field
    case YearField => YearOf(s) == YearOf(t)
    case MonthField => MonthNumber(s) == MonthNumber(t)
    case DayField => DayNumber(s) == DayNumber(t)
    case HourField => s.hour == t.hour
    case MinuteField => s.minute == t.minute
    case SecondField => s.second == t.second
  }

  /** Parsing the print succeeds, and every printed field comes back. */
  predicate Restores(format: string, t: Stamp, typ: FormatType)
    requires Proper(t)
  {
    var p := Print(format, t, typ);
    && p.Ok?
    && Parse(format, p.value, typ).Ok?
    && forall f :: f in Printed(format) ==> Agrees(f, Parse(format, p.value, typ).value, t)
  }

  lemma EpochIsMixed(t: Stamp)
    ensures Mixed(t, {}) == EPOCH
  {
    EpochDay();
  }

  lemma ParsesTo(format: string, t: Stamp, typ: FormatType)
    requires Proper(t) && !LeapDay(t) && Print(format, t, typ).Ok? && YearsDelimited(format, t)
    ensures Fine(t, Printed(format))
    ensures Parse(format, Print(format, t, typ).value, typ) == Ok(Mixed(t, Printed(format)))
  {
    ReadsBack(format, t, typ, Print(format, t, typ).value, 0, EPOCH);
    EpochIsMixed(t);
    OrdinaryStores(format, t, {});
    assert {} + Printed(format) == Printed(format);
  }

  lemma MixedAgrees(t: Stamp, seen: set<Field>)
    requires Fine(t, seen)
    ensures forall f :: f in seen ==> Agrees(f, Mixed(t, seen), t)
  {
    MixedReadsBack(t, seen);
  }

  lemma OrdinaryDayRestored(format: string, t: Stamp, typ: FormatType)
    requires Proper(t) && !LeapDay(t) && Print(format, t, typ).Ok? && YearsDelimited(format, t)
    ensures Restores(format, t, typ)
  {
    ParsesTo(format, t, typ);
    MixedAgrees(t, Printed(format));
  }

  // ----- February 29th -----

  /**
   Where reading February 29th has got to: the fields read, and the month and day that are stored, which slip to
   March 1st when they first meet without a leap year, and may be set right by fields read again.
   */
  datatype LeapState = LeapState(seen: set<Field>, month: nat, day: nat)

  const LEAP_START: LeapState := LeapState({}, 1, 1)

  function ReadField(st: LeapState, f: Field): LeapState {
    var next := st.(seen := st.seen + {f});
    match f
    case MonthField =>
      if st.day == 29 && YearField !in st.seen then next.(month := 3, day := 1) else next.(month := 2)
    case DayField =>
      if st.month == 2 && YearField !in st.seen then next.(month := 3, day := 1) else next.(day := 29)
    case _ => next
  }

  function ReadSpecifier(st: LeapState, c: char): LeapState
    requires IsSpec(c)
  {
    match c
    case 'F' => ReadField(ReadField(ReadField(st, YearField), MonthField), DayField)
    case 'T' => ReadField(ReadField(ReadField(st, HourField), MinuteField), SecondField)
    case 'R' => ReadField(ReadField(st, HourField), MinuteField)
    case _ => ReadField(st, StepsOf(c)[0].field)
  }

  function ReadFormat(format: string, st: LeapState): LeapState
    decreases |format|
  {
    if format == "" then st
    else if format[0] == '%' && |format| >= 2 && IsSpec(format[1]) then
      ReadFormat(format[2..], ReadSpecifier(st, format[1]))
    else ReadFormat(format[1..], st)
  }

  /** Whatever month and day the format prints is right in the end. */
  predicate Recovers(format: string) {
    var end := ReadFormat(format, LEAP_START);
    && (MonthField in Printed(format) ==> end.month == 2)
    && (DayField in Printed(format) ==> end.day == 29)
  }

  predicate Possible(st: LeapState) {
    && st.month in {1, 2, 3} && st.day in {1, 29}
    && (st.month == 2 && st.day == 29 ==> YearField in st.seen)
  }

  function LeapStamp(t: Stamp, st: LeapState): Stamp {
    Mixed(t, st.seen).(day := MakeDate(if YearField in st.seen then YearOf(t) else 1970, st.month, st.day).day)
  }

  lemma LeapStampReads(t: Stamp, st: LeapState)
    requires LeapDay(t) && Possible(st)
    ensures YearOf(LeapStamp(t, st)) == if YearField in st.seen then YearOf(t) else 1970
    ensures MonthNumber(LeapStamp(t, st)) == st.month && DayNumber(LeapStamp(t, st)) == st.day
  {
    var y := if YearField in st.seen then YearOf(t) else 1970;
    LeapYearOf(t);
    MonthLengthsInAnyYear(y, y, st.month);
    DateReadsBack(y, st.month, st.day);
  }

  lemma LeapYearOf(t: Stamp)
    requires LeapDay(t)
    ensures Leap(YearOf(t))
  {
    assert 12 * YearOf(t) + MonthNumber(t) - 1 == MonthOf(t.day);
    MonthLengthsInAnyYear(YearOf(t), YearOf(t), 2);
  }

  lemma NoLeapDay(y: int)
    requires !Leap(y)
    ensures MakeDate(y, 2, 29) == MakeDate(y, 3, 1)
  {
    var k := 12 * y + 1;
    MonthsFollow(k);
    assert k % 12 == 1 && k / 12 == y;
  }

  lemma StoreLeap(t: Stamp, st: LeapState, f: Field)
    requires Proper(t) && LeapDay(t) && Possible(st)
    ensures Possible(ReadField(st, f)) && StoreFrom(LeapStamp(t, st), f, t) == LeapStamp(t, ReadField(st, f))
  {
    hide MonthStart, YearOf, MonthNumber, DayNumber;
    LeapStampReads(t, st);
    var y := 1970;
    NoLeapDay(y);
  }

  lemma LeapStampStarts(t: Stamp)
    ensures LeapStamp(t, LEAP_START) == EPOCH && Possible(LEAP_START)
  {
    EpochIsMixed(t);
  }

  lemma StoreSpecLeap(t: Stamp, st: LeapState, c: char)
    requires Proper(t) && LeapDay(t) && Possible(st) && IsSpec(c)
    ensures Possible(ReadSpecifier(st, c)) && StoreSpec(c, t, LeapStamp(t, st)) == LeapStamp(t, ReadSpecifier(st, c))
    ensures ReadSpecifier(st, c).seen == st.seen + FieldsOf(c)
  {
    hide StoreFrom, LeapStamp;
    if c == 'F' {
      var a := ReadField(st, YearField);
      var b := ReadField(a, MonthField);
      StoreLeap(t, st, YearField);
      StoreLeap(t, a, MonthField);
      StoreLeap(t, b, DayField);
    } else if c == 'T' || c == 'R' {
      var a := ReadField(st, HourField);
      var b := ReadField(a, MinuteField);
      StoreLeap(t, st, HourField);
      StoreLeap(t, a, MinuteField);
      StoreLeap(t, b, SecondField);
    } else {
      StoreLeap(t, st, StepsOf(c)[0].field);
    }
  }

  lemma {:induction false} StoresLeap(format: string, t: Stamp, st: LeapState)
    requires Proper(t) && LeapDay(t) && Possible(st)
    ensures Possible(ReadFormat(format, st))
    ensures Stores(format, t, LeapStamp(t, st)) == LeapStamp(t, ReadFormat(format, st))
    ensures ReadFormat(format, st).seen == st.seen + Printed(format)
    decreases |format|
  {
    hide LeapStamp, StoreSpec, Possible;
    if format == "" {
      assert st.seen + {} == st.seen;
    } else if format[0] == '%' && |format| >= 2 && IsSpec(format[1]) {
      StoreSpecLeap(t, st, format[1]);
      StoresLeap(format[2..], t, ReadSpecifier(st, format[1]));
      assert st.seen + Printed(format) == st.seen + FieldsOf(format[1]) + Printed(format[2..]);
    } else {
      StoresLeap(format[1..], t, st);
    }
  }

  lemma LeapDayParsesTo(format: string, t: Stamp, typ: FormatType)
    requires Proper(t) && LeapDay(t) && Print(format, t, typ).Ok? && YearsDelimited(format, t)
    ensures
      var end := ReadFormat(format, LEAP_START);
      && Possible(end) && end.seen == Printed(format)
      && Parse(format, Print(format, t, typ).value, typ) == Ok(LeapStamp(t, end))
  {
    hide LeapStamp, ParseFrom, Print, Stores, ReadFormat, LeapDay;
    ReadsBack(format, t, typ, Print(format, t, typ).value, 0, EPOCH);
    LeapStampStarts(t);
    StoresLeap(format, t, LEAP_START);
    assert {} + Printed(format) == Printed(format);
  }

  /** A format restores a February 29th, whichever, exactly when it recovers. */
  lemma LeapDayRestoredIff(format: string, t: Stamp, typ: FormatType)
    requires Proper(t) && LeapDay(t) && Print(format, t, typ).Ok? && YearsDelimited(format, t)
    ensures Restores(format, t, typ) <==> Recovers(format)
  {
    hide LeapStamp, ParseFrom, Print, Agrees, ReadFormat, LeapDay;
    LeapDayParsesTo(format, t, typ);
    LeapAgrees(format, t, ReadFormat(format, LEAP_START));
  }

  lemma LeapAgrees(format: string, t: Stamp, end: LeapState)
    requires LeapDay(t) && Possible(end) && end.seen == Printed(format)
    ensures (forall f :: f in Printed(format) ==> Agrees(f, LeapStamp(t, end), t)) <==>
      (MonthField in Printed(format) ==> end.month == 2) && (DayField in Printed(format) ==> end.day == 29)
  {
    LeapStampReads(t, end);
    assert Agrees(MonthField, LeapStamp(t, end), t) <==> end.month == 2;
    assert Agrees(DayField, LeapStamp(t, end), t) <==> end.day == 29;
  }

  /** The round trip: of any day but February 29th, and with a format that recovers of that day too. */
  lemma RoundTrip(format: string, t: Stamp, typ: FormatType)
    requires Proper(t) && Print(format, t, typ).Ok? && YearsDelimited(format, t) && (Recovers(format) || !LeapDay(t))
    ensures Restores(format, t, typ)
  {
    if LeapDay(t) {
      LeapDayRestoredIff(format, t, typ);
    } else {
      OrdinaryDayRestored(format, t, typ);
    }
  }

  /** With a whole date and clock in the format, the time itself comes back, to the second. */
  lemma FullRoundTrip(format: string, t: Stamp, typ: FormatType)
    requires Proper(t) && Print(format, t, typ).Ok? && YearsDelimited(format, t) && (Recovers(format) || !LeapDay(t))
    requires Printed(format) == {YearField, MonthField, DayField, HourField, MinuteField, SecondField}
    ensures Parse(format, Print(format, t, typ).value, typ) == Ok(t.(nanos := 0))
  {
    FieldsMakeDate(Time(t.day, 0));
    if LeapDay(t) {
      LeapDayParsesTo(format, t, typ);
    } else {
      ParsesTo(format, t, typ);
    }
  }

  /** Only known, available specifiers; then every time can be printed. */
  predicate Printable(format: string, typ: FormatType)
    decreases |format|
  {
    if format == "" then true
    else if format[0] == '%' then
      |format| >= 2 && IsSpec(format[1]) && Available(format[1], typ) && Printable(format[2..], typ)
    else Printable(format[1..], typ)
  }

  lemma {:induction false} PrintableIffPrints(format: string, t: Stamp, typ: FormatType)
    requires Proper(t)
    ensures Printable(format, typ) <==> Print(format, t, typ).Ok?
    decreases |format|
  {
    if format == "" {
    } else if format[0] == '%' && |format| >= 2 {
      PrintableIffPrints(format[2..], t, typ);
    } else {
      PrintableIffPrints(format[1..], t, typ);
    }
  }

  lemma {:induction false} LongYearsDelimited(format: string, t: Stamp)
    requires YearOf(t) >= 1000
    ensures YearsDelimited(format, t)
    decreases |format|
  {
    if format == "" {
    } else if format[0] == '%' && |format| >= 2 {
      LongYearsDelimited(format[2..], t);
    } else {
      LongYearsDelimited(format[1..], t);
    }
  }

  ghost predicate AlwaysRestores(format: string, typ: FormatType) {
    forall t: Stamp :: Proper(t) && YearsDelimited(format, t) ==> Restores(format, t, typ)
  }

  lemma LeapDayOf(y: int) returns (t: Stamp)
    requires Leap(y) && 1 <= y <= 9999
    ensures Proper(t) && LeapDay(t) && YearOf(t) == y
  {
    t := Stamp(MakeDate(y, 2, 29).day, 0, 0, 0, 0);
    assert (12 * y + 1) % 12 == 1 && (12 * y + 1) / 12 == y;
    DateReadsBack(y, 2, 29);
  }

  /**
   A format of literals and the modelled specifiers restores every time exactly when reading February 29th with it
   ends in February and on the 29th, as far as it prints them.
   */
  lemma RoundTripIff(format: string, typ: FormatType)
    requires Printable(format, typ)
    ensures AlwaysRestores(format, typ) <==> Recovers(format)
  {
    if Recovers(format) {
      forall t: Stamp | Proper(t) && YearsDelimited(format, t)
        ensures Restores(format, t, typ)
      {
        PrintableIffPrints(format, t, typ);
        RoundTrip(format, t, typ);
      }
    } else {
      var leap := LeapDayOf(2000);
      PrintableIffPrints(format, leap, typ);
      LongYearsDelimited(format, leap);
      LeapDayRestoredIff(format, leap, typ);
    }
  }

  // ----- which formats recover -----

  /** No part of the date is printed twice. */
  predicate Once(format: string, seen: set<Field>)
    decreases |format|
  {
    if format == "" then true
    else if format[0] == '%' && |format| >= 2 && IsSpec(format[1]) then
      (IsDateSpec(format[1]) ==> FieldsOf(format[1]) !! seen) && Once(format[2..], seen + FieldsOf(format[1]))
    else Once(format[1..], seen)
  }

  /** As long as nothing has slipped, month and day are right where they have been read. */
  predicate Unslipped(st: LeapState) {
    && Sound(st.seen)
    && st.month == (if MonthField in st.seen then 2 else 1)
    && st.day == (if DayField in st.seen then 29 else 1)
  }

  lemma {:induction false} SafeStaysRight(format: string, st: LeapState)
    requires Unslipped(st) && Safe(format, st.seen)
    ensures Unslipped(ReadFormat(format, st)) && ReadFormat(format, st).seen == st.seen + Printed(format)
    decreases |format|
  {
    if format != "" && format[0] == '%' && |format| >= 2 && IsSpec(format[1]) {
      SafeSpecifier(st, format[1]);
      SafeStaysRight(format[2..], ReadSpecifier(st, format[1]));
      assert st.seen + Printed(format) == st.seen + FieldsOf(format[1]) + Printed(format[2..]);
    } else if format != "" {
      SafeStaysRight(format[1..], st);
    }
  }

  lemma SafeSpecifier(st: LeapState, c: char)
    requires Unslipped(st) && IsSpec(c)
    ensures ReadSpecifier(st, c).seen == st.seen + FieldsOf(c)
    ensures Sound(st.seen + FieldsOf(c)) ==> Unslipped(ReadSpecifier(st, c))
    ensures !Sound(st.seen + FieldsOf(c)) ==> ReadSpecifier(st, c).month == 3 && MonthField in ReadSpecifier(st, c).seen
  {
  }

  lemma {:induction false} SlippedStays(format: string, st: LeapState)
    requires {MonthField, DayField} <= st.seen && st.month == 3 && st.day == 1 && Once(format, st.seen)
    ensures ReadFormat(format, st).month == 3
    decreases |format|
  {
    if format != "" && format[0] == '%' && |format| >= 2 && IsSpec(format[1]) {
      assert MonthField in FieldsOf('m') && DayField in FieldsOf('d') && MonthField in FieldsOf('F');
      assert ReadSpecifier(st, format[1]).seen == st.seen + FieldsOf(format[1]);
      SlippedStays(format[2..], ReadSpecifier(st, format[1]));
    } else if format != "" {
      SlippedStays(format[1..], st);
    }
  }

  lemma {:induction false} UnsafeSlips(format: string, st: LeapState)
    requires Unslipped(st) && !Safe(format, st.seen) && Once(format, st.seen)
    ensures ReadFormat(format, st).month == 3 && MonthField in st.seen + Printed(format)
    decreases |format|
  {
    if format[0] == '%' && |format| >= 2 && IsSpec(format[1]) {
      var next := ReadSpecifier(st, format[1]);
      SafeSpecifier(st, format[1]);
      if Sound(next.seen) {
        UnsafeSlips(format[2..], next);
      } else {
        SlippedStays(format[2..], next);
      }
    } else {
      UnsafeSlips(format[1..], st);
    }
  }

  /** Safe formats recover; among those that print no part of the date twice, no others do. */
  lemma SafeRecovers(format: string)
    ensures Safe(format, {}) ==> Recovers(format)
    ensures Once(format, {}) ==> (Recovers(format) <==> Safe(format, {}))
  {
    assert {} + Printed(format) == Printed(format);
    if Safe(format, {}) {
      SafeStaysRight(format, LEAP_START);
    } else if Once(format, {}) {
      UnsafeSlips(format, LEAP_START);
    }
  }
}
