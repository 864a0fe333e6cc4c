/** DATE_DIFF, DATE_TRUNC, DATE_ADD and month arithmetic (internal/function_date.go:55-182 and 286-308). */
module DateFunctions {
  import opened Wrappers
  import opened Calendar

  // ----- weeks -----

  const WEEK_PART_TO_OFFSET: map<string, nat> := map[
    "WEEK" := 0, "WEEK_MONDAY" := 1, "WEEK_TUESDAY" := 2, "WEEK_WEDNESDAY" := 3, "WEEK_THURSDAY" := 4,
    "WEEK_FRIDAY" := 5, "WEEK_SATURDAY" := 6]

  /** How many days after lo, up to and including hi, fall on a weekday. */
  function CountWeekday(w: nat, lo: int, hi: int): nat
    decreases hi - lo
  {
    if hi <= lo then 0 else CountWeekday(w, lo, hi - 1) + (if Weekday(hi) == w then 1 else 0)
  }

  /** The last day up to n that falls on a weekday. */
  function LastWeekday(w: nat, n: int): (d: int)
    requires w < 7
    ensures d <= n < d + 7 && Weekday(d) == w
  {
    n - (Weekday(n) + 7 - w) % 7
  }

  /** Two days less than a week apart fall on different weekdays. */
  lemma WeekdaysDiffer(a: int, b: int)
    requires Weekday(a) == Weekday(b) && -7 < a - b < 7
    ensures a == b
  {
  }

  lemma LastWeekdayIs(w: nat, n: int, d: int)
    requires w < 7 && d <= n < d + 7 && Weekday(d) == w
    ensures LastWeekday(w, n) == d
  {
    WeekdaysDiffer(LastWeekday(w, n), d);
  }

  lemma LastWeekdayStep(w: nat, n: int)
    requires w < 7
    ensures LastWeekday(w, n) == if Weekday(n) == w then n else LastWeekday(w, n - 1)
  {
    hide LastWeekday, Weekday;
    var d := LastWeekday(w, n);
    if Weekday(n) == w {
      LastWeekdayIs(w, n, n);
    } else {
      LastWeekdayIs(w, n - 1, d);
    }
  }

  lemma WeekLater(n: int, weeks: int)
    ensures Weekday(n + 7 * weeks) == Weekday(n)
  {
  }

  lemma LastWeekdayMoves(w: nat, n: int)
    requires w < 7
    ensures LastWeekday(w, n) == LastWeekday(w, n - 1) + (if Weekday(n) == w then 7 else 0)
  {
    hide LastWeekday, Weekday;
    LastWeekdayStep(w, n);
    if Weekday(n) == w {
      WeekLater(n, -1);
      LastWeekdayIs(w, n - 1, n - 7);
    }
  }

  /** Counting a weekday over (lo, hi] is measuring, in weeks, how far its last occurrence moves. */
  lemma {:induction false} CountIsTruncation(w: nat, lo: int, hi: int)
    requires w < 7 && lo <= hi
    ensures 7 * CountWeekday(w, lo, hi) == LastWeekday(w, hi) - LastWeekday(w, lo)
    decreases hi - lo
  {
    if lo < hi {
      CountIsTruncation(w, lo, hi - 1);
      LastWeekdayMoves(w, hi);
    }
  }

  /** Seven more days bring every weekday once more. */
  lemma {:induction false} CountWeeks(w: nat, lo: int, weeks: nat, rest: nat)
    requires w < 7
    ensures CountWeekday(w, lo, lo + 7 * weeks + rest) == weeks + CountWeekday(w, lo, lo + rest)
  {
    CountIsTruncation(w, lo, lo + 7 * weeks + rest);
    CountIsTruncation(w, lo, lo + rest);
  }

  /** The signed number of week boundaries between two days. */
  function WeekDiff(w: nat, a: int, b: int): int {
    if b > a then 0 - CountWeekday(w, a, b) else CountWeekday(w, b, a)
  }

  /** DATE_DIFF for WEEK and WEEK_X; days are whole days between the two times. */
  method DateDiffWeek(a: Time, b: Time, part: string) returns (r: Result<int>)
    ensures r.Ok? <==> part in WEEK_PART_TO_OFFSET
    ensures r.Ok? && Midnight(a) && Midnight(b) ==> r.value == WeekDiff(WEEK_PART_TO_OFFSET[part], a.day, b.day)
  {
    if part !in WEEK_PART_TO_OFFSET {
      return Err("unsupported week date part");
    }
    var boundary := WEEK_PART_TO_OFFSET[part];
    var isNegative, start, end := false, b, a;
    if Unix(b) > Unix(a) {
      isNegative, start, end := true, a, b;
    }
    var days := (Unix(end) - Unix(start)) / 24 / 60 / 60;
    var counts := CountBoundaries(start, days);
    var result: int := counts[boundary];
    if isNegative {
      result := -result;
    }
    if Midnight(a) && Midnight(b) {
      WholeDays(end.day - start.day);
    }
    return Ok(result);
  }

  lemma WholeDays(n: int)
    ensures 86400 * n / 24 / 60 / 60 == n
  {
  }

  lemma WeekdayAfter(n: int, k: nat)
    ensures Weekday(n + k) == (Weekday(n) + k) % 7
  {
  }

  lemma CountStep(lo: int, hi: int)
    requires lo < hi
    ensures forall w: nat ::
      CountWeekday(w, lo, hi) == CountWeekday(w, lo, hi - 1) + (if Weekday(hi) == w then 1 else 0)
  {
  }

  /** How often each weekday occurs in the given number of days after a start. */
  method CountBoundaries(start: Time, days: nat) returns (counts: array<nat>)
    ensures counts.Length == 7 && fresh(counts)
    ensures forall w :: 0 <= w < 7 ==> counts[w] == CountWeekday(w, start.day, start.day + days)
  {
    var fullWeeks, remainder := days / 7, days % 7;
    counts := new nat[7];
    for day := 0 to 7
      invariant forall w :: 0 <= w < day ==> counts[w] == fullWeeks
    {
      counts[day] := fullWeeks;
    }
    var startingDay := Weekday(start.day);
    ghost var total := remainder;
    hide Weekday, CountWeekday;
    while remainder > 0
      invariant 0 <= remainder <= total < 7
      invariant forall w :: 0 <= w < 7 ==>
        counts[w] + CountWeekday(w, start.day, start.day + remainder)
        == fullWeeks + CountWeekday(w, start.day, start.day + total)
    {
      var day := (startingDay + remainder) % 7;
      WeekdayAfter(start.day, remainder);
      CountStep(start.day, start.day + remainder);
      counts[day] := counts[day] + 1;
      remainder := remainder - 1;
    }
    forall w | 0 <= w < 7
      ensures counts[w] == CountWeekday(w, start.day, start.day + days)
    {
      CountWeeks(w, start.day, fullWeeks, total);
    }
  }

  /** DATE_TRUNC for WEEK and WEEK_X: back to the last day on which such a week starts; the time of day stays. */
  method DateTruncWeek(t: Time, part: string) returns (r: Result<Time>)
    ensures r.Ok? <==> part in WEEK_PART_TO_OFFSET
    ensures r.Ok? ==> r.value == Time(LastWeekday(WEEK_PART_TO_OFFSET[part], t.day), t.nanos)
  {
    if part !in WEEK_PART_TO_OFFSET {
      return Err("unknown week part");
    }
    var s := StepBack(t, WEEK_PART_TO_OFFSET[part]);
    return Ok(s);
  }

  method StepBack(t: Time, startOfWeek: nat) returns (s: Time)
    requires startOfWeek < 7
    ensures s == Time(LastWeekday(startOfWeek, t.day), t.nanos)
  {
    hide AddDate, LastWeekday, Weekday;
    s := t;
    while Weekday(s.day) != startOfWeek
      invariant s.nanos == t.nanos && LastWeekday(startOfWeek, s.day) == LastWeekday(startOfWeek, t.day)
      decreases s.day - LastWeekday(startOfWeek, t.day)
    {
      LastWeekdayStep(startOfWeek, s.day);
      AddDays(s, -1);
      s := AddDate(s, 0, 0, -1);
    }
    LastWeekdayStep(startOfWeek, s.day);
  }

  /** DATE_DIFF by week is the difference of the truncated dates, in weeks. */
  lemma WeekDiffIsTruncation(w: nat, a: int, b: int)
    requires w < 7
    ensures 7 * WeekDiff(w, a, b) == LastWeekday(w, a) - LastWeekday(w, b)
  {
    if b > a {
      CountIsTruncation(w, a, b);
    } else {
      CountIsTruncation(w, b, a);
    }
  }

  /** Hence it is antisymmetric and additive, and whole weeks count fully. */
  lemma WeekDiffLaws(w: nat, a: int, b: int, c: int, weeks: int)
    requires w < 7
    ensures WeekDiff(w, a, b) == -WeekDiff(w, b, a)
    ensures WeekDiff(w, a, c) == WeekDiff(w, a, b) + WeekDiff(w, b, c)
    ensures WeekDiff(w, a + 7 * weeks, a) == weeks
  {
    hide WeekDiff, LastWeekday, Weekday;
    WeekDiffIsTruncation(w, a, b);
    WeekDiffIsTruncation(w, b, a);
    WeekDiffIsTruncation(w, b, c);
    WeekDiffIsTruncation(w, a, c);
    WeekDiffIsTruncation(w, a + 7 * weeks, a);
    WeekLater(LastWeekday(w, a), weeks);
    LastWeekdayIs(w, a + 7 * weeks, LastWeekday(w, a) + 7 * weeks);
  }

  // ----- months -----

  /** 12 * year + (month - 1), the month's index. */
  function MonthIndex(t: Time): int {
    12 * Year(t) + Month(t) - 1
  }

  lemma MonthIndexIs(t: Time)
    ensures MonthIndex(t) == MonthOf(t.day)
  {
    assert 12 * (MonthOf(t.day) / 12) + MonthOf(t.day) % 12 == MonthOf(t.day);
  }

  /** `addMonth`. */
  function AddMonth(t: Time, m: int): Time {
    var first := MakeDate(Year(t), Month(t), 1);
    var moved := AddDate(first, 0, m, 0);
    var after := MakeDate(Year(moved), Month(moved), Day(t));
    if Month(moved) != Month(after) then AddDate(first, 0, m + 1, -1) else AddDate(t, 0, m, 0)
  }

  /** `addYear`. */
  function AddYear(t: Time, y: int): Time {
    var first := MakeDate(Year(t), Month(t), 1);
    var moved := AddDate(first, y, 0, 0);
    var after := MakeDate(Year(moved), Month(moved), Day(t));
    if Month(moved) != Month(after) then AddDate(first, y, 1, -1) else AddDate(t, y, 0, 0)
  }

  function Min(a: nat, b: nat): nat {
    if a < b then a else b
  }

  /** The day of the month does not exist in the month reached. */
  predicate Clamps(t: Time, k: int) {
    Day(t) > MonthLength(k)
  }

  /** Day d of month k, counted past its end, is in month k exactly when the month has it. */
  lemma DayInMonth(k: int, d: nat)
    requires 1 <= d <= 31
    ensures MonthOf(MonthStart(k) + d - 1) == if d <= MonthLength(k) then k else k + 1
  {
    MonthsFollow(k);
    MonthOfIs(MonthStart(k) + d - 1, if d <= MonthLength(k) then k else k + 1);
  }

  lemma MonthNumbers(k: int)
    ensures k % 12 != (k + 1) % 12
  {
  }

  lemma DateInMonthOf(t: Time, d: int)
    ensures MakeDate(Year(t), Month(t), d) == Time(MonthStart(MonthOf(t.day)) + d - 1, 0)
  {
    MonthIndexIs(t);
  }

  lemma FirstOfMonth(t: Time)
    ensures
      var first := MakeDate(Year(t), Month(t), 1);
      first == Time(MonthStart(MonthOf(t.day)), 0) && MonthOf(first.day) == MonthOf(t.day) && Day(first) == 1
  {
    DateInMonthOf(t, 1);
    DayInMonth(MonthOf(t.day), 1);
  }

  /** The month both functions look at, and how they test whether it has the day. */
  lemma OverflowTest(moved: Time, k: int, d: nat)
    requires moved.day == MonthStart(k) && 1 <= d <= 31
    ensures Month(moved) != Month(MakeDate(Year(moved), Month(moved), d)) <==> d > MonthLength(k)
  {
    DayInMonth(k, 1);
    DateInMonthOf(moved, d);
    DayInMonth(k, d);
    MonthNumbers(k);
  }

  /** What both functions compute: the month they reach, and the day cut to that month's length. */
  function Reached(t: Time, k: int): Time {
    Time(MonthStart(k) + Min(Day(t), MonthLength(k)) - 1, if Clamps(t, k) then 0 else t.nanos)
  }

  lemma Reaching(t: Time, years: int, months: int)
    ensures
      var k := MonthOf(t.day) + 12 * years + months;
      var first := MakeDate(Year(t), Month(t), 1);
      var moved := AddDate(first, years, months, 0);
      && (Month(moved) != Month(MakeDate(Year(moved), Month(moved), Day(t))) <==> Clamps(t, k))
      && (Clamps(t, k) ==> AddDate(first, years, months + 1, -1) == Reached(t, k))
      && (!Clamps(t, k) ==> AddDate(t, years, months, 0) == Reached(t, k))
  {
    hide AddDate, MonthStart, MonthLength;
    var k := MonthOf(t.day) + 12 * years + months;
    var first := MakeDate(Year(t), Month(t), 1);
    FirstOfMonth(t);
    AddDateIs(first, years, months, 0);
    AddDateIs(first, years, months + 1, -1);
    AddDateIs(t, years, months, 0);
    OverflowTest(AddDate(first, years, months, 0), k, Day(t));
    MonthsFollow(k);
  }

  lemma AddMonthReaches(t: Time, m: int)
    ensures AddMonth(t, m) == Reached(t, MonthIndex(t) + m)
  {
    MonthIndexIs(t);
    Reaching(t, 0, m);
  }

  lemma AddYearReaches(t: Time, y: int)
    ensures AddYear(t, y) == Reached(t, MonthIndex(t) + 12 * y)
  {
    MonthIndexIs(t);
    Reaching(t, y, 0);
  }

  /** Adding years is adding twelve times as many months. */
  lemma AddYearIsAddMonth(t: Time, y: int)
    ensures AddYear(t, y) == AddMonth(t, 12 * y)
  {
    AddYearReaches(t, y);
    AddMonthReaches(t, 12 * y);
  }

  lemma ReachedFields(t: Time, k: int)
    ensures MonthIndex(Reached(t, k)) == k && Day(Reached(t, k)) == Min(Day(t), MonthLength(k))
  {
    DayInMonth(k, Min(Day(t), MonthLength(k)));
    MonthIndexIs(Reached(t, k));
  }

  /** addMonth moves the month by exactly m, and cuts the day to the length of the month reached. */
  lemma AddMonthMoves(t: Time, m: int)
    ensures MonthIndex(AddMonth(t, m)) == MonthIndex(t) + m
    ensures Day(AddMonth(t, m)) == Min(Day(t), MonthLength(MonthIndex(t) + m))
  {
    AddMonthReaches(t, m);
    ReachedFields(t, MonthIndex(t) + m);
  }

  /**
   The time of day survives exactly when the day is not cut or there is none.  No caller shows the loss: a DATE has
   no time of day, and DATETIME_ADD and DATETIME_SUB put back their argument's.
   */
  lemma AddMonthKeepsTimeOfDay(t: Time, m: int)
    ensures AddMonth(t, m).nanos == t.nanos <==> Midnight(t) || !Clamps(t, MonthIndex(t) + m)
  {
    AddMonthReaches(t, m);
  }

  lemma ThereAndBack(t: Time, k: int, there: Time, back: Time, m: int)
    requires there == Reached(t, k) && k == MonthIndex(t) + m && back == Reached(there, MonthIndex(there) - m)
    ensures back == t <==> !Clamps(t, k)
  {
    ReachedFields(t, k);
    ReachedFields(there, MonthIndex(t));
    MonthIndexIs(t);
    assert t.day == MonthStart(MonthIndex(t)) + Day(t) - 1;
  }

  /** Going there and back is the identity exactly when the day is not cut on the way. */
  lemma AddMonthUndone(t: Time, m: int)
    ensures AddMonth(AddMonth(t, m), -m) == t <==> !Clamps(t, MonthIndex(t) + m)
  {
    hide AddMonth, MonthStart, MonthLength, MonthIndex;
    AddMonthReaches(t, m);
    AddMonthReaches(AddMonth(t, m), -m);
    ThereAndBack(t, MonthIndex(t) + m, AddMonth(t, m), AddMonth(AddMonth(t, m), -m), m);
  }

  // ----- DATE_ADD and DATE_DIFF -----

  function DateAdd(t: Time, v: int, part: string): Result<Time> {
    if part == "DAY" then Ok(AddDate(t, 0, 0, v))
    else if part == "WEEK" then Ok(AddDate(t, 0, 0, v * 7))
    else if part == "MONTH" then Ok(AddMonth(t, v))
    else if part == "YEAR" then Ok(AddYear(t, v))
    else if part == "QUARTER" then Ok(AddMonth(t, 3))
    else Err("unexpected part value")
  }

  function DateSub(t: Time, v: int, part: string): Result<Time> {
    if part == "DAY" then Ok(AddDate(t, 0, 0, -v))
    else if part == "WEEK" then Ok(AddDate(t, 0, 0, -v * 7))
    else if part == "MONTH" then Ok(AddMonth(t, -v))
    else if part == "YEAR" then Ok(AddYear(t, -v))
    else Err("unexpected part value")
  }

  function DateDiffMonth(a: Time, b: Time): int {
    (Year(a) * 12 + Month(a)) - (Year(b) * 12 + Month(b))
  }

  function DateDiffYear(a: Time, b: Time): int {
    Year(a) - Year(b)
  }

  /** DATE_DIFF undoes DATE_ADD, for months. */
  lemma MonthDiffUndoesAdd(t: Time, v: int)
    ensures DateAdd(t, v, "MONTH").Ok? && DateDiffMonth(DateAdd(t, v, "MONTH").value, t) == v
  {
    AddMonthMoves(t, v);
  }

  /** ... for years ... */
  lemma YearDiffUndoesAdd(t: Time, v: int)
    ensures DateAdd(t, v, "YEAR").Ok? && DateDiffYear(DateAdd(t, v, "YEAR").value, t) == v
  {
    AddYearIsAddMonth(t, v);
    AddMonthMoves(t, 12 * v);
  }

  /** ... and for weeks, wherever they start. */
  lemma WeekDiffUndoesAdd(t: Time, v: int, w: nat)
    requires w < 7
    ensures DateAdd(t, v, "WEEK").Ok? && WeekDiff(w, DateAdd(t, v, "WEEK").value.day, t.day) == v
  {
    AddDays(t, v * 7);
    WeekDiffLaws(w, t.day, t.day, t.day, v);
  }

  /** DATE_SUB undoes DATE_ADD: always for days and weeks ... */
  lemma SubUndoesAddOfDays(t: Time, v: int)
    ensures DateSub(AddDate(t, 0, 0, v), v, "DAY") == Ok(t) && DateSub(AddDate(t, 0, 0, v * 7), v, "WEEK") == Ok(t)
  {
    AddDays(t, v);
    AddDays(Time(t.day + v, t.nanos), -v);
    AddDays(t, v * 7);
    AddDays(Time(t.day + v * 7, t.nanos), -v * 7);
  }

  lemma AddYearUndone(t: Time, y: int)
    ensures AddYear(AddYear(t, y), -y) == t <==> !Clamps(t, MonthIndex(t) + 12 * y)
  {
    hide AddYear, MonthStart, MonthLength, MonthIndex;
    AddYearReaches(t, y);
    AddYearReaches(AddYear(t, y), -y);
    ThereAndBack(t, MonthIndex(t) + 12 * y, AddYear(t, y), AddYear(AddYear(t, y), -y), 12 * y);
  }

  /** ... for months and years exactly when the day is not cut. */
  lemma SubUndoesAddOfMonths(t: Time, v: int)
    ensures DateSub(AddMonth(t, v), v, "MONTH") == Ok(t) <==> !Clamps(t, MonthIndex(t) + v)
    ensures DateSub(AddYear(t, v), v, "YEAR") == Ok(t) <==> !Clamps(t, MonthIndex(t) + 12 * v)
  {
    AddMonthUndone(t, v);
    AddYearUndone(t, v);
    SubIs(AddMonth(t, v), v);
    SubIs(AddYear(t, v), v);
  }

  lemma SubIs(t: Time, v: int)
    ensures DateSub(t, v, "MONTH") == Ok(AddMonth(t, -v)) && DateSub(t, v, "YEAR") == Ok(AddYear(t, -v))
  {
  }

  /** DATE_ADD with QUARTER adds one quarter whatever the count: it is right exactly when the count is 1. */
  lemma QuarterIgnoresCount(t: Time, v: int)
    ensures DateAdd(t, v, "QUARTER") == Ok(AddMonth(t, 3 * v)) <==> v == 1
  {
    AddMonthMoves(t, 3);
    AddMonthMoves(t, 3 * v);
  }
}
