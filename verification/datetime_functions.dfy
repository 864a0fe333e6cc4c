/**
 DATETIME_ADD, DATETIME_SUB and DATETIME_DIFF (internal/function_datetime.go:108-200).  The parts of a day are
 added as a `time.Duration`, an int64 number of nanoseconds; the other parts go through DATE_ADD and DATE_SUB,
 and the time of day is put back.
 */
module DatetimeFunctions {
  import opened Wrappers
  import opened Integers
  import opened Calendar
  import opened DateFunctions

  /** The parts of a day, in nanoseconds. */
  const CLOCK_PARTS: map<string, nat> := map[
    "MICROSECOND" := 1_000, "MILLISECOND" := 1_000_000, "SECOND" := 1_000_000_000, "MINUTE" := 60_000_000_000,
    "HOUR" := 3_600_000_000_000]

  /** Nanoseconds from the first day's midnight. */
  function Instant(t: Time): int {
    t.day * DAY + t.nanos
  }

  function AtInstant(n: int): (t: Time)
    ensures Instant(t) == n
  {
    Time(n / DAY, n % DAY)
  }

  lemma InstantsDiffer(t: Time, u: Time)
    requires Instant(t) == Instant(u)
    ensures t == u
  {
  }

  function Hour(t: Time): nat {
    t.nanos / 3_600_000_000_000
  }

  function Minute(t: Time): nat {
    t.nanos / 60_000_000_000 % 60
  }

  function Second(t: Time): nat {
    t.nanos / 1_000_000_000 % 60
  }

  function Nanosecond(t: Time): nat {
    t.nanos % 1_000_000_000
  }

  /** `time.Date` with a time of day, which may carry over into the date. */
  function MakeDatetime(year: int, month: int, day: int, hour: int, minute: int, second: int, nano: int): Time {
    AtInstant(
      Instant(MakeDate(year, month, day)) + ((hour * 60 + minute) * 60 + second) * 1_000_000_000 + nano)
  }

  /** A date, with the time of day of another time. */
  function Reattached(date: Time, t: Time): Time {
    MakeDatetime(Year(date), Month(date), Day(date), Hour(t), Minute(t), Second(t), Nanosecond(t))
  }

  function DatetimeAdd(t: Time, v: int, part: string): Result<Time> {
    if part in CLOCK_PARTS then Ok(AtInstant(Instant(t) + Wrap(v * CLOCK_PARTS[part])))
    else
      match DateAdd(t, v, part)
      case Err(e) => Err("DATETIME_ADD: " + e)
      case Ok(date) => Ok(Reattached(date, t))
  }

  function DatetimeSub(t: Time, v: int, part: string): Result<Time> {
    if part in CLOCK_PARTS then Ok(AtInstant(Instant(t) + Wrap(-v * CLOCK_PARTS[part])))
    else
      match DateSub(t, v, part)
      case Err(e) => Err("DATETIME_SUB: " + e)
      case Ok(date) => Ok(Reattached(date, t))
  }

  /** `Sub` of two times, which stops at the longest durations. */
  function Elapsed(a: Time, b: Time): int {
    var d := Instant(a) - Instant(b);
    if d < -TWO_63 then -TWO_63 else if d >= TWO_63 then TWO_63 - 1 else d
  }

  /** DATETIME_DIFF for the parts of a day. */
  function DatetimeDiff(a: Time, b: Time, part: string): int
    requires part in CLOCK_PARTS
  {
    Quotient(Elapsed(a, b), CLOCK_PARTS[part])
  }

  // ----- dates -----

  lemma ClockReadsBack(t: Time)
    ensures ((Hour(t) * 60 + Minute(t)) * 60 + Second(t)) * 1_000_000_000 + Nanosecond(t) == t.nanos
  {
    var s, m := t.nanos / 1_000_000_000, t.nanos / 60_000_000_000;
    assert m == s / 60 && Hour(t) == m / 60;
  }

  lemma ReattachedIs(date: Time, t: Time)
    ensures Reattached(date, t) == Time(date.day, t.nanos)
  {
    hide Year, Month, Day, Hour, Minute, Second, Nanosecond;
    ClockReadsBack(t);
    FieldsMakeDate(date);
    assert MakeDate(Year(date), Month(date), Day(date)).nanos == 0;
    InstantsDiffer(Reattached(date, t), Time(date.day, t.nanos));
  }

  /**
   Whatever DATE_ADD and DATE_SUB do to the time of day, DATETIME_ADD and DATETIME_SUB keep it: the result is the
   date that they reach, at the time of day of the argument.
   */
  lemma DatetimeKeepsTimeOfDay(t: Time, v: int, part: string)
    requires part !in CLOCK_PARTS
    ensures DatetimeAdd(t, v, part).Ok? <==> DateAdd(t, v, part).Ok?
    ensures DatetimeSub(t, v, part).Ok? <==> DateSub(t, v, part).Ok?
    ensures DateAdd(t, v, part).Ok? ==>
      DatetimeAdd(t, v, part) == Ok(Time(DateAdd(t, v, part).value.day, t.nanos))
    ensures DateSub(t, v, part).Ok? ==>
      DatetimeSub(t, v, part) == Ok(Time(DateSub(t, v, part).value.day, t.nanos))
  {
    hide DateAdd, DateSub, Reattached;
    if DateAdd(t, v, part).Ok? {
      ReattachedIs(DateAdd(t, v, part).value, t);
    }
    if DateSub(t, v, part).Ok? {
      ReattachedIs(DateSub(t, v, part).value, t);
    }
  }

  /** Only the date decides which date is reached. */
  lemma DateDecides(t: Time, u: Time, m: int)
    requires t.day == u.day
    ensures AddMonth(t, m).day == AddMonth(u, m).day && AddYear(t, m) == AddMonth(t, 12 * m)
  {
    hide AddMonth, AddYear, MonthIndex, MonthLength, MonthStart;
    AddMonthReaches(t, m);
    AddMonthReaches(u, m);
    AddYearIsAddMonth(t, m);
    MonthIndexIs(t);
    MonthIndexIs(u);
  }

  /** The dates of adding months and of subtracting them again. */
  lemma MonthsUndone(t: Time, m: int)
    ensures
      var there := Time(AddMonth(t, m).day, t.nanos);
      AddMonth(there, -m).day == t.day <==> !Clamps(t, MonthIndex(t) + m)
  {
    hide AddMonth, MonthStart, MonthLength, MonthOf;
    var date := Time(t.day, 0);
    DateDecides(t, date, m);
    DateDecides(Time(AddMonth(t, m).day, t.nanos), AddMonth(date, m), -m);
    AddMonthKeepsTimeOfDay(date, m);
    AddMonthUndone(date, m);
    AddMonthReaches(date, m);
    AddMonthReaches(AddMonth(date, m), -m);
  }

  /** DATETIME_SUB undoes DATETIME_ADD: months and years exactly when the day of the month is not cut. */
  lemma SubUndoesAddOfDates(t: Time, v: int)
    ensures DatetimeAdd(t, v, "MONTH").Ok? && DatetimeAdd(t, v, "YEAR").Ok?
    ensures DatetimeSub(DatetimeAdd(t, v, "MONTH").value, v, "MONTH") == Ok(t) <==> !Clamps(t, MonthIndex(t) + v)
    ensures DatetimeSub(DatetimeAdd(t, v, "YEAR").value, v, "YEAR") == Ok(t) <==> !Clamps(t, MonthIndex(t) + 12 * v)
  {
    hide AddMonth, AddYear, Clamps, MonthIndex, Reattached;
    DatetimeKeepsTimeOfDay(t, v, "MONTH");
    DatetimeKeepsTimeOfDay(t, v, "YEAR");
    DatetimeKeepsTimeOfDay(DatetimeAdd(t, v, "MONTH").value, v, "MONTH");
    DatetimeKeepsTimeOfDay(DatetimeAdd(t, v, "YEAR").value, v, "YEAR");
    MonthsUndone(t, v);
    MonthsUndone(t, 12 * v);
    DateDecides(t, t, v);
    DateDecides(DatetimeAdd(t, v, "YEAR").value, t.(day := DatetimeAdd(t, v, "YEAR").value.day), -v);
  }

  // ----- parts of a day -----

  lemma WrapsToItself(n: int)
    ensures Wrap(n) == n <==> Int64(n)
  {
  }

  /**
   Adding hours and smaller parts reaches the right instant exactly when their nanoseconds fit 64 bits, which
   is some 292 years; and exactly then DATETIME_DIFF finds the count again.
   */
  lemma ClockAddReachesIff(t: Time, v: int, part: string)
    requires part in CLOCK_PARTS
    ensures DatetimeAdd(t, v, part).Ok?
    ensures
      var u := DatetimeAdd(t, v, part).value;
      && (Instant(u) == Instant(t) + v * CLOCK_PARTS[part] <==> Int64(v * CLOCK_PARTS[part]))
      && (DatetimeDiff(u, t, part) == v <==> Int64(v * CLOCK_PARTS[part]))
  {
    hide Wrap;
    var u := DatetimeAdd(t, v, part).value;
    var unit := CLOCK_PARTS[part];
    WrapsToItself(v * unit);
    QuotientIsNear(Wrap(v * unit), unit);
    if Int64(v * unit) {
      Multiples(v, DatetimeDiff(u, t, part), unit);
    } else {
      WrapIsFar(v * unit);
    }
  }

  lemma QuotientIsNear(n: int, unit: nat)
    requires unit > 0
    ensures n - unit < Quotient(n, unit) * unit < n + unit
  {
    if n >= 0 {
      assert n == n / unit * unit + n % unit;
    } else {
      assert -n == -n / unit * unit + -n % unit;
    }
  }

  lemma Multiples(v: int, w: int, unit: nat)
    requires v * unit - unit < w * unit < v * unit + unit
    ensures v == w
  {
    if v < w {
      MultiplesGrow(v + 1, w, unit);
    } else if w < v {
      MultiplesGrow(w + 1, v, unit);
    }
  }

  lemma MultiplesGrow(v: int, w: int, unit: nat)
    requires v <= w
    ensures v * unit <= w * unit
  {
  }

  lemma WrapIsFar(n: int)
    requires !Int64(n)
    ensures n - Wrap(n) >= TWO_63 || Wrap(n) - n >= TWO_63
  {
  }

  /** DATETIME_SUB undoes it exactly when the nanoseconds do not wrap to the least integer. */
  lemma SubUndoesAddOfClocks(t: Time, v: int, part: string)
    requires part in CLOCK_PARTS
    ensures DatetimeAdd(t, v, part).Ok?
    ensures DatetimeSub(DatetimeAdd(t, v, part).value, v, part) == Ok(t)
       <==> Wrap(v * CLOCK_PARTS[part]) != -TWO_63
  {
    hide Wrap;
    var unit := CLOCK_PARTS[part];
    var u := DatetimeAdd(t, v, part).value;
    assert -v * unit == -(v * unit);
    WrapNegates(v * unit);
    var back := DatetimeSub(u, v, part).value;
    if Instant(back) == Instant(t) {
      InstantsDiffer(back, t);
    }
  }

  /** 2562047 hours are added, 2562048 hours are taken away: they wrap to 292 years before. */
  lemma HoursWrap(t: Time)
    ensures Instant(DatetimeAdd(t, 2562047, "HOUR").value) == Instant(t) + 2562047 * 3_600_000_000_000
    ensures Instant(DatetimeAdd(t, 2562048, "HOUR").value) < Instant(t)
  {
  }
}
