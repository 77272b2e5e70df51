/** The Gregorian calendar: timegm() as a day count, and the broken-down time it inverts. */
module Calendar {
  const DAY: int := 86400

  predicate Leap(y: int) {
    y % 4 == 0 && (y % 100 != 0 || y % 400 == 0)
  }

  /** Leap years up to and including year `n`. */
  function Leaps(n: int): int {
    n / 4 - n / 100 + n / 400
  }

  /** Days from 1 January 1970 to 1 January of year `y`. */
  function DaysBeforeYear(y: int): int {
    365 * (y - 1970) + Leaps(y - 1) - Leaps(1969)
  }

  const CUMULATIVE: seq<int> := [0, 31, 59, 90, 120, 151, 181, 212, 243, 273, 304, 334, 365]

  /** Days from 1 January to the first of month `m`, counted from 0; month 12 is the next year. */
  function DaysBeforeMonth(y: int, m: nat): int
    requires m <= 12
  {
    CUMULATIVE[m] + if m > 1 && Leap(y) then 1 else 0
  }

  datatype Date = Date(year: int, month: nat, day: int, hour: int, minute: int, second: int)

  /** timegm(): fields out of range carry over, as they do in mktime(). */
  function TimeGm(d: Date): int
    requires d.month < 12
  {
    DAY * (DaysBeforeYear(d.year) + DaysBeforeMonth(d.year, d.month) + d.day - 1)
    + 3600 * d.hour + 60 * d.minute + d.second
  }

  function YearLength(y: int): int {
    if Leap(y) then 366 else 365
  }

  lemma QuarterStep(y: int)
    ensures y / 4 == (y - 1) / 4 + if y % 4 == 0 then 1 else 0
  {
  }

  lemma CenturyStep(y: int)
    ensures y / 100 == (y - 1) / 100 + if y % 100 == 0 then 1 else 0
  {
  }

  lemma CycleStep(y: int)
    ensures y / 400 == (y - 1) / 400 + if y % 400 == 0 then 1 else 0
  {
  }

  lemma HundredsDivide(q: int)
    ensures (100 * q) % 100 == 0
  {
  }

  lemma FoursDivide(q: int)
    ensures (4 * q) % 4 == 0
  {
  }

  lemma CycleIsCentury(y: int)
    requires y % 400 == 0
    ensures y % 100 == 0
  {
    var q := 4 * (y / 400);
    assert y == 100 * q;
    HundredsDivide(q);
  }

  lemma CenturyIsQuarter(y: int)
    requires y % 100 == 0
    ensures y % 4 == 0
  {
    var q := 25 * (y / 100);
    assert y == 4 * q;
    FoursDivide(q);
  }

  lemma LeapsGrow(y: int)
    ensures Leaps(y) == Leaps(y - 1) + if Leap(y) then 1 else 0
  {
    QuarterStep(y);
    CenturyStep(y);
    CycleStep(y);
    if y % 100 == 0 { CenturyIsQuarter(y); }
    if y % 400 == 0 { CycleIsCentury(y); }
  }

  lemma YearsAddUp(y: int)
    ensures DaysBeforeYear(y + 1) == DaysBeforeYear(y) + YearLength(y)
    ensures DaysBeforeMonth(y, 12) == YearLength(y)
  {
    LeapsGrow(y);
  }

  /** The year and the day of the year `days` days after 1 January of `y`. */
  function YearDay(y: int, days: nat): (r: (int, nat))
    ensures r.1 < YearLength(r.0) && y <= r.0
    decreases days
  {
    if days < YearLength(y) then (y, days) else YearDay(y + 1, days - YearLength(y))
  }

  lemma {:induction false} YearDayInverts(y: int, days: nat)
    ensures DaysBeforeYear(YearDay(y, days).0) + YearDay(y, days).1 == DaysBeforeYear(y) + days
    ensures 365 * (YearDay(y, days).0 - y) <= days
    decreases days
  {
    if days >= YearLength(y) {
      YearsAddUp(y);
      YearDayInverts(y + 1, days - YearLength(y));
    }
  }

  /** The last month, from `m` on, that starts no later than day `n` of the year. */
  function MonthOf(y: int, n: nat, m: nat): (r: nat)
    requires m < 12 && DaysBeforeMonth(y, m) <= n < DaysBeforeMonth(y, 12)
    ensures r < 12 && DaysBeforeMonth(y, r) <= n < DaysBeforeMonth(y, r + 1)
    decreases 12 - m
  {
    if n < DaysBeforeMonth(y, m + 1) then m else MonthOf(y, n, m + 1)
  }

  /** gmtime() */
  function GmTime(t: nat): (d: Date)
    ensures 0 <= d.month < 12 && 1 <= d.day <= 31
    ensures 0 <= d.hour < 24 && 0 <= d.minute < 60 && 0 <= d.second < 60
    ensures 1970 <= d.year
  {
    var (y, n) := YearDay(1970, t / DAY);
    YearsAddUp(y);
    var m := MonthOf(y, n, 0);
    Date(y, m, n - DaysBeforeMonth(y, m) + 1, t % DAY / 3600, t % DAY % 3600 / 60, t % DAY % 3600 % 60)
  }

  /** timegm() undoes gmtime() at every second. */
  lemma TimeGmInverts(t: nat)
    ensures TimeGm(GmTime(t)) == t
    ensures GmTime(t).year <= 1970 + t / DAY / 365
  {
    YearDayInverts(1970, t / DAY);
    ClockAddsUp(t);
    assert GmTime(t).year - 1970 <= (t / DAY) / 365;
  }

  /** gmtime() gives a day its month has. */
  lemma GmTimeIsProper(t: nat)
    ensures var d := GmTime(t); 1 <= d.day <= DaysBeforeMonth(d.year, d.month + 1) - DaysBeforeMonth(d.year, d.month)
  {
    var (y, n) := YearDay(1970, t / DAY);
    YearsAddUp(y);
  }

  lemma ClockAddsUp(t: nat)
    ensures t == DAY * (t / DAY) + 3600 * (t % DAY / 3600) + 60 * (t % DAY % 3600 / 60) + t % DAY % 3600 % 60
  {
    assert t == DAY * (t / DAY) + t % DAY;
    HourAddsUp(t % DAY);
  }

  lemma HourAddsUp(s: nat)
    ensures s == 3600 * (s / 3600) + 60 * (s % 3600 / 60) + s % 3600 % 60
  {
    assert s == 3600 * (s / 3600) + s % 3600;
    MinuteAddsUp(s % 3600);
  }

  lemma MinuteAddsUp(s: nat)
    ensures s == 60 * (s / 60) + s % 60
  {
  }

  /** Thirty days have September, April, June and November. */
  lemma MonthLengths(y: int, m: nat)
    requires m < 12
    ensures DaysBeforeMonth(y, 0) == 0
    ensures DaysBeforeMonth(y, m + 1) - DaysBeforeMonth(y, m)
         == if m == 1 then (if y % 400 == 0 || (y % 4 == 0 && y % 100 != 0) then 29 else 28)
            else if m == 3 || m == 5 || m == 8 || m == 10 then 30
            else 31
  {
  }

  /** The epoch, the example of section 3.3.1 of RFC 2616, and the days around the odd centuries. */
  lemma KnownTimes()
    ensures TimeGm(Date(1970, 0, 1, 0, 0, 0)) == 0
    ensures TimeGm(Date(1994, 10, 6, 8, 49, 37)) == 784111777
    ensures TimeGm(Date(2000, 2, 1, 0, 0, 0)) == 951868800
    ensures TimeGm(Date(2100, 2, 1, 0, 0, 0)) == 4107542400
    ensures TimeGm(Date(2106, 1, 7, 6, 28, 15)) == 0xffff_ffff
  {
  }
}
