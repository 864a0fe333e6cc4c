/**
 The calendar behind Go's `time.Time` in UTC: the proleptic Gregorian calendar, with days numbered from
 0001-01-01 and months numbered 12 * year + (month - 1).  `time.Date` accepts any year, month and day and
 normalises them.
 */
module Calendar {

  predicate Leap(y: int) {
    y % 4 == 0 && (y % 100 != 0 || y % 400 == 0)
  }

  function MonthLength(k: int): (n: nat)
    ensures 28 <= n <= 31
  {
    var m := k % 12;
    if m == 1 then (if Leap(k / 12) then 29 else 28)
    else if m == 3 || m == 5 || m == 8 || m == 10 then 30
    else 31
  }

  /** The day on which month k starts; month 12, January of year 1, starts on day 0. */
  function MonthStart(k: int): int
    decreases if k < 12 then 12 - k else k - 12
  {
    if k == 12 then 0
    else if k > 12 then MonthStart(k - 1) + MonthLength(k - 1)
    else MonthStart(k + 1) - MonthLength(k)
  }

  /** A month starts where the one before it ends. */
  lemma MonthsFollow(k: int)
    ensures MonthStart(k + 1) == MonthStart(k) + MonthLength(k)
  {
  }

  /** Days from 0001-01-01 to January 1st of year y, in closed form. */
  function YearStart(y: int): int {
    365 * (y - 1) + (y - 1) / 4 - (y - 1) / 100 + (y - 1) / 400
  }

  lemma Fours(y: int)
    ensures y / 4 == (y - 1) / 4 + (if y % 4 == 0 then 1 else 0)
  {
  }

  lemma Hundreds(y: int)
    ensures y / 100 == (y - 1) / 100 + (if y % 100 == 0 then 1 else 0)
  {
  }

  lemma FourHundreds(y: int)
    ensures y / 400 == (y - 1) / 400 + (if y % 400 == 0 then 1 else 0)
    ensures y % 400 == 0 ==> y % 100 == 0 && y % 4 == 0
    ensures y % 100 == 0 ==> y % 4 == 0
  {
  }

  lemma YearStep(y: int)
    ensures YearStart(y + 1) == YearStart(y) + (if Leap(y) then 366 else 365)
  {
    Fours(y);
    Hundreds(y);
    FourHundreds(y);
  }

  /** The days of a year's first m months. */
  lemma {:induction false} MonthsOfYear(y: int, m: nat)
    requires m <= 12
    ensures MonthStart(12 * y + m) == MonthStart(12 * y)
      + [0, 31, 59, 90, 120, 151, 181, 212, 243, 273, 304, 334, 365][m] + (if Leap(y) && m >= 2 then 1 else 0)
  {
    if m > 0 {
      MonthsOfYear(y, m - 1);
      MonthsFollow(12 * y + m - 1);
      assert (12 * y + m - 1) / 12 == y && (12 * y + m - 1) % 12 == m - 1;
    }
  }

  /** Counting months one by one agrees with the leap-year formula. */
  lemma {:induction false} YearsStart(y: int)
    ensures MonthStart(12 * y) == YearStart(y)
    decreases if y < 1 then 1 - y else y - 1
  {
    if y > 1 {
      YearsStart(y - 1);
      YearStep(y - 1);
      MonthsOfYear(y - 1, 12);
    } else if y < 1 {
      YearsStart(y + 1);
      YearStep(y);
      MonthsOfYear(y, 12);
    }
  }

  lemma {:induction false} MonthsGrow(k: int, l: int)
    requires k <= l
    ensures MonthStart(k) + 28 * (l - k) <= MonthStart(l)
    decreases l - k
  {
    if k < l {
      MonthsFollow(l - 1);
      MonthsGrow(k, l - 1);
    }
  }

  predicate InMonth(n: int, k: int) {
    MonthStart(k) <= n < MonthStart(k) + MonthLength(k)
  }

  lemma MonthsApart(k: int, l: int)
    ensures k < l ==> MonthStart(k) + MonthLength(k) <= MonthStart(l)
  {
    if k < l {
      MonthsFollow(k);
      MonthsGrow(k + 1, l);
    }
  }

  lemma Trichotomy(a: int, alen: nat, b: int, blen: nat, n: int, k: int, l: int)
    requires a <= n < a + alen && b <= n < b + blen
    requires (k < l ==> a + alen <= b) && (l < k ==> b + blen <= a)
    ensures k == l
  {
  }

  lemma InOneMonth(n: int, k: int, l: int)
    requires InMonth(n, k) && InMonth(n, l)
    ensures k == l
  {
    MonthsApart(k, l);
    MonthsApart(l, k);
    Trichotomy(MonthStart(k), MonthLength(k), MonthStart(l), MonthLength(l), n, k, l);
  }

  /** The month of day n, searching upwards from a month that does not start after it. */
  function MonthUp(n: int, k: int): (l: int)
    requires MonthStart(k) <= n
    ensures InMonth(n, l)
    decreases n - MonthStart(k)
  {
    MonthsFollow(k);
    if n < MonthStart(k) + MonthLength(k) then k else MonthUp(n, k + 1)
  }

  function MonthDown(n: int, k: int): (l: int)
    requires n < MonthStart(k)
    ensures InMonth(n, l)
    decreases MonthStart(k) - n
  {
    MonthsFollow(k - 1);
    if MonthStart(k - 1) <= n then k - 1 else MonthDown(n, k - 1)
  }

  /** The month a day falls in. */
  function MonthOf(n: int): (k: int)
    ensures InMonth(n, k)
  {
    if MonthStart(12) <= n then MonthUp(n, 12) else MonthDown(n, 12)
  }

  lemma MonthOfIs(n: int, k: int)
    requires InMonth(n, k)
    ensures MonthOf(n) == k
  {
    InOneMonth(n, k, MonthOf(n));
  }

  // ----- times -----

  const DAY := 86_400_000_000_000

  /** Nanoseconds since midnight. */
  type Clock = n: nat | n < DAY

  /** A UTC time: the day and the time of day. */
  datatype Time = Time(day: int, nanos: Clock)

  predicate Midnight(t: Time) {
    t.nanos == 0
  }

  function Year(t: Time): int {
    MonthOf(t.day) / 12
  }

  /** The month's number, from 1. */
  function Month(t: Time): (m: nat)
    ensures 1 <= m <= 12
  {
    MonthOf(t.day) % 12 + 1
  }

  /** The day of the month, from 1. */
  function Day(t: Time): (d: nat)
    ensures 1 <= d <= MonthLength(MonthOf(t.day))
  {
    t.day - MonthStart(MonthOf(t.day)) + 1
  }

  /** `Weekday`, from Sunday = 0; 0001-01-01 was a Monday. */
  function Weekday(n: int): (w: nat)
    ensures w < 7
  {
    (n + 1) % 7
  }

  /** `Unix`. */
  function Unix(t: Time): int {
    86400 * (t.day - 719162) + t.nanos / 1_000_000_000
  }

  /** `time.Date` on any year, month and day; what overflows carries over. */
  function MakeDate(year: int, month: int, day: int): Time {
    Time(MonthStart(12 * year + month - 1) + day - 1, 0)
  }

  /** `AddDate`: the date of the shifted fields, with the same time of day. */
  function AddDate(t: Time, years: int, months: int, days: int): Time {
    Time(MakeDate(Year(t) + years, Month(t) + months, Day(t) + days).day, t.nanos)
  }

  /** In terms of month numbers. */
  lemma AddDateIs(t: Time, years: int, months: int, days: int)
    ensures AddDate(t, years, months, days)
         == Time(MonthStart(MonthOf(t.day) + 12 * years + months) + Day(t) + days - 1, t.nanos)
  {
    assert 12 * (Year(t) + years) + Month(t) + months - 1 == MonthOf(t.day) + 12 * years + months;
  }

  /** Dates that need no normalising are read back as they were given. */
  lemma DateReadsBack(year: int, month: int, day: int)
    requires 1 <= month <= 12 && 1 <= day <= MonthLength(12 * year + month - 1)
    ensures
      var t := MakeDate(year, month, day);
      Year(t) == year && Month(t) == month && Day(t) == day
  {
    MonthOfIs(MakeDate(year, month, day).day, 12 * year + month - 1);
  }

  /** Every time is the date of its own fields. */
  lemma FieldsMakeDate(t: Time)
    ensures MakeDate(Year(t), Month(t), Day(t)).day == t.day
  {
    var k := MonthOf(t.day);
    assert 12 * (k / 12) + k % 12 == k;
  }

  lemma AddDays(t: Time, days: int)
    ensures AddDate(t, 0, 0, days) == Time(t.day + days, t.nanos)
  {
    AddDateIs(t, 0, 0, days);
  }

  /** The epoch: 1970-01-01 was a Thursday. */
  lemma EpochDay()
    ensures MakeDate(1970, 1, 1).day == 719162 && Weekday(719162) == 4 && Unix(MakeDate(1970, 1, 1)) == 0
  {
    hide MonthStart;
    YearsStart(1970);
  }
}
