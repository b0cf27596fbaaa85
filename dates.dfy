/**
 * Calendar dates and the offsets a subscription plan adds to them.
 *
 * The dashboard keeps dates as `YYYY-MM-DD` strings, whose string order is
 * date order; here a date is a validated (year, month, day) triple ordered
 * lexicographically. Month and year offsets follow JavaScript's `Date`:
 * `setMonth`/`setFullYear` keep the day of the month and let a day past the
 * end of the target month run over into the next one (31 January plus one
 * month is 3 March, or 2 March in a leap year).
 */
module Dates {

  datatype Ymd = Ymd(year: int, month: int, day: int)

  /** Gregorian leap-year rule. */
  predicate IsLeapYear(y: int) {
    (y % 4 == 0 && y % 100 != 0) || y % 400 == 0
  }

  function DaysInMonth(y: int, m: int): (n: int)
    requires 1 <= m <= 12
    ensures 28 <= n <= 31
    ensures m == 2 ==> (n == 29 <==> IsLeapYear(y))
  {
    if m == 2 then (if IsLeapYear(y) then 29 else 28)
    else if m == 4 || m == 6 || m == 9 || m == 11 then 30
    else 31
  }

  predicate ValidYmd(d: Ymd) {
    1 <= d.month <= 12 && 1 <= d.day <= DaysInMonth(d.year, d.month)
  }

  /** A date that exists in the proleptic Gregorian calendar. */
  type Date = d: Ymd | ValidYmd(d) witness Ymd(1970, 1, 1)

  /** `a` is a strictly earlier day than `b`. */
  predicate Before(a: Ymd, b: Ymd) {
    a.year < b.year
    || (a.year == b.year && (a.month < b.month || (a.month == b.month && a.day < b.day)))
  }

  /** `a` is not later than `b`. */
  predicate NotAfter(a: Ymd, b: Ymd) {
    !Before(b, a)
  }

  /** `Before` is a strict total order on dates. */
  lemma BeforeIsStrictTotalOrder(a: Ymd, b: Ymd, c: Ymd)
    ensures !Before(a, a)
    ensures Before(a, b) && Before(b, c) ==> Before(a, c)
    ensures a == b || Before(a, b) || Before(b, a)
  {
  }

  /** The calendar day after `d`. */
  function NextDay(d: Date): (r: Date)
    ensures Before(d, r)
  {
    if d.day < DaysInMonth(d.year, d.month) then Ymd(d.year, d.month, d.day + 1)
    else if d.month < 12 then Ymd(d.year, d.month + 1, 1)
    else Ymd(d.year + 1, 1, 1)
  }

  /** No date lies strictly between a day and the next one. */
  lemma NextDayIsImmediate(d: Date, x: Date)
    requires Before(d, x)
    ensures NotAfter(NextDay(d), x)
  {
  }

  /** `n` days after `d` (`setDate(getDate() + n)`). */
  function AddDays(d: Date, n: nat): Date {
    if n == 0 then d else NextDay(AddDays(d, n - 1))
  }

  /** Adding days never goes back in time, and adding at least one day moves forward. */
  lemma {:induction false} AddDaysMonotone(d: Date, n: nat)
    ensures NotAfter(d, AddDays(d, n))
    ensures n > 0 ==> Before(d, AddDays(d, n))
  {
    if n > 0 {
      AddDaysMonotone(d, n - 1);
    }
  }

  /** Adding `a` days and then `b` days is adding `a + b` days. */
  lemma {:induction false} AddDaysAdditive(d: Date, a: nat, b: nat)
    ensures AddDays(AddDays(d, a), b) == AddDays(d, a + b)
  {
    if b > 0 {
      AddDaysAdditive(d, a, b - 1);
    }
  }

  /** Within one month, adding days just moves the day of the month. */
  lemma {:induction false} AddDaysWithinMonth(d: Date, k: nat)
    requires d.day + k <= DaysInMonth(d.year, d.month)
    ensures AddDays(d, k) == Ymd(d.year, d.month, d.day + k)
  {
    if k > 0 {
      AddDaysWithinMonth(d, k - 1);
    }
  }

  /** The first day of the month after month `m` of year `y`. */
  function FirstOfNextMonth(y: int, m: int): Date
    requires 1 <= m <= 12
  {
    if m < 12 then Ymd(y, m + 1, 1) else Ymd(y + 1, 1, 1)
  }

  /**
   * Day `day` of month `m` of year `y`, counted from the first of the month,
   * so that a day past the end of the month runs over into the next months.
   */
  function DayOfMonth(y: int, m: int, day: int): Date
    requires 1 <= m <= 12 && day >= 1
  {
    AddDays(Ymd(y, m, 1), day - 1)
  }

  /** A day that exists in the month is that very date. */
  lemma DayOfMonthExact(y: int, m: int, day: int)
    requires 1 <= m <= 12 && 1 <= day <= DaysInMonth(y, m)
    ensures DayOfMonth(y, m, day) == Ymd(y, m, day)
  {
    AddDaysWithinMonth(Ymd(y, m, 1), day - 1);
  }

  /** A day past the end of the month lands in the next month, by the excess. */
  lemma DayOfMonthOverflow(y: int, m: int, day: int)
    requires 1 <= m <= 12 && DaysInMonth(y, m) < day <= DaysInMonth(y, m) + 28
    ensures DayOfMonth(y, m, day) == Ymd(FirstOfNextMonth(y, m).year, FirstOfNextMonth(y, m).month, day - DaysInMonth(y, m))
  {
    var last := DaysInMonth(y, m);
    var first: Date := Ymd(y, m, 1);
    AddDaysWithinMonth(first, last - 1);
    AddDaysAdditive(first, last - 1, day - last);
    var next := FirstOfNextMonth(y, m);
    assert AddDays(Ymd(y, m, last), 1) == next;
    AddDaysAdditive(Ymd(y, m, last), 1, day - last - 1);
    AddDaysWithinMonth(next, day - last - 1);
  }

  /** `setMonth(getMonth() + n)`: the same day of the month, `n` months later. */
  function AddMonths(d: Date, n: nat): Date {
    var t := d.month - 1 + n;
    DayOfMonth(d.year + t / 12, t % 12 + 1, d.day)
  }

  /** `setFullYear(getFullYear() + n)`: the same month and day, `n` years later. */
  function AddYears(d: Date, n: nat): Date {
    DayOfMonth(d.year + n, d.month, d.day)
  }

  /** The length a plan adds to its start date. */
  datatype Offset = Days(n: nat) | Months(n: nat) | Years(n: nat)

  function AddOffset(d: Date, o: Offset): Date {
    match o
    case Days(n) => AddDays(d, n)
    case Months(n) => AddMonths(d, n)
    case Years(n) => AddYears(d, n)
  }

  /** A positive offset yields a date strictly after the start. */
  lemma AddOffsetAfter(d: Date, o: Offset)
    requires o.n > 0
    ensures Before(d, AddOffset(d, o))
  {
    match o
    case Days(n) =>
      AddDaysMonotone(d, n);
    case Months(n) =>
      var t := d.month - 1 + n;
      AddDaysMonotone(Ymd(d.year + t / 12, t % 12 + 1, 1), d.day - 1);
    case Years(n) =>
      AddDaysMonotone(Ymd(d.year + n, d.month, 1), d.day - 1);
  }

  /** A month offset whose target month has the start's day differs by exactly that many months. */
  lemma AddMonthsExact(d: Date, n: nat)
    requires d.day <= DaysInMonth(d.year + (d.month - 1 + n) / 12, (d.month - 1 + n) % 12 + 1)
    ensures AddMonths(d, n).day == d.day
    ensures AddMonths(d, n).year * 12 + AddMonths(d, n).month == d.year * 12 + d.month + n
  {
    var t := d.month - 1 + n;
    DayOfMonthExact(d.year + t / 12, t % 12 + 1, d.day);
  }

  /** A year offset whose target year has the start's day differs by exactly that many years. */
  lemma AddYearsExact(d: Date, n: nat)
    requires d.day <= DaysInMonth(d.year + n, d.month)
    ensures AddYears(d, n) == Ymd(d.year + n, d.month, d.day)
  {
    DayOfMonthExact(d.year + n, d.month, d.day);
  }

  /** 29 February plus one year is 1 March, as with `setFullYear`. */
  lemma LeapDayPlusOneYear(y: int)
    requires IsLeapYear(y) && !IsLeapYear(y + 1)
    ensures AddYears(Ymd(y, 2, 29), 1) == Ymd(y + 1, 3, 1)
  {
    DayOfMonthOverflow(y + 1, 2, 29);
  }

  /** 31 January plus one month is 3 March in a common year, as with `setMonth`. */
  lemma EndOfJanuaryPlusOneMonth(y: int)
    requires !IsLeapYear(y)
    ensures AddMonths(Ymd(y, 1, 31), 1) == Ymd(y, 3, 3)
  {
    DayOfMonthOverflow(y, 2, 31);
  }
}
