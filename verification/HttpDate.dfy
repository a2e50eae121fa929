/** Calendar arithmetic for HTTP dates: seconds since the epoch from broken-down time. */
module HttpDate {
  /** Broken-down time: year since 1900, month from 0, day of the month from 1. */
  datatype Tm = Tm(year: int, mon: int, mday: int, hour: int, min: int, sec: int)

  predicate IsLeap(year: int) {
    if year % 400 != 0 then (if year % 100 != 0 then year % 4 == 0 else false) else true
  }

  // ---- the Gregorian calendar

  function YearLength(y: nat): (r: nat) {
    if IsLeap(y) then 366 else 365
  }

  /** Days from 1 January 1970 to 1 January of year `y`. */
  function DaysToYear(y: nat): (r: nat)
    requires y >= 1970
  {
    if y == 1970 then 0 else DaysToYear(y - 1) + YearLength(y - 1)
  }

  function MonthLength(y: nat, m: nat): (r: nat)
    requires m < 12
  {
    if m == 1 then (if IsLeap(y) then 29 else 28)
    else if m == 3 || m == 5 || m == 8 || m == 10 then 30
    else 31
  }

  /** Days from 1 January to the first of month `m`. */
  function DaysToMonth(y: nat, m: nat): (r: nat)
    requires m <= 12
  {
    if m == 0 then 0 else DaysToMonth(y, m - 1) + MonthLength(y, m - 1)
  }

  /** Days from the epoch to day `d` of month `m` of year `y`. */
  function DayNumber(y: nat, m: nat, d: int): (r: int)
    requires y >= 1970 && m < 12
  {
    DaysToYear(y) + DaysToMonth(y, m) + d - 1
  }

  /** Day numbers count days: 0 on the first, one more on each next day of the calendar. */
  lemma DayNumberCounts(y: nat, m: nat, d: nat)
    requires y >= 1970 && m < 12 && 1 <= d <= MonthLength(y, m)
    ensures DayNumber(1970, 0, 1) == 0
    ensures d < MonthLength(y, m) ==> DayNumber(y, m, d + 1) == DayNumber(y, m, d) + 1
    ensures d == MonthLength(y, m) && m < 11 ==> DayNumber(y, m + 1, 1) == DayNumber(y, m, d) + 1
    ensures d == MonthLength(y, m) && m == 11 ==> DayNumber(y + 1, 0, 1) == DayNumber(y, m, d) + 1
  {
    if m == 11 { MonthTable(y, 11); }
  }

  /** The table of month starts, plus the leap day from March on. */
  function MonthTab(m: nat): (r: nat)
    requires m < 12
  {
    [0, 31, 59, 90, 120, 151, 181, 212, 243, 273, 304, 334][m]
  }

  lemma {:induction false} MonthTable(y: nat, m: nat)
    requires m < 12
    ensures DaysToMonth(y, m) == MonthTab(m) + if m >= 2 && IsLeap(y) then 1 else 0
  {
    if m > 0 { MonthTable(y, m - 1); }
  }

  // ---- the days the program counts up to a year

  /** Division of a non-negative number, as the program divides. */
  function YearDays(year: int): (r: int)
    requires year >= 70
  {
    (year - 70) * 365 + (year - 69) / 4
    - (if year > 200 then (year - 101) / 100 else 0)
    + (if year > 500 then (year - 101) / 400 else 0)
  }

  lemma YearStep(year: int)
    requires year >= 70
    ensures YearDays(year + 1) == YearDays(year) + YearLength(year + 1900)
  {
    hide YearLength;
    FourStep(year);
    HundredStep(year);
    FourHundredStep(year);
    LeapParts(year);
  }

  lemma FourStep(year: int)
    requires year >= 70
    ensures (year - 68) / 4 == (year - 69) / 4 + if year % 4 == 0 then 1 else 0
  {
  }

  lemma HundredStep(year: int)
    requires year >= 70
    ensures (if year + 1 > 200 then (year - 100) / 100 else 0)
      == (if year > 200 then (year - 101) / 100 else 0) + if year % 100 == 0 && year >= 200 then 1 else 0
  {
    assert (year - 100) % 100 == year % 100;
  }

  lemma FourHundredStep(year: int)
    requires year >= 70
    ensures (if year + 1 > 500 then (year - 100) / 400 else 0)
      == (if year > 500 then (year - 101) / 400 else 0) + if year % 400 == 100 && year >= 500 then 1 else 0
  {
  }

  lemma By400(year: nat)
    ensures (year + 1900) % 400 == 0 <==> year % 400 == 100
  {
    var k, r := year / 400, year % 400;
    assert year + 1900 == 400 * (k + 4) + (r + 300);
  }

  lemma By100(year: nat)
    ensures (year + 1900) % 100 == year % 100
  {
    var k, r := year / 100, year % 100;
    assert year + 1900 == 100 * (k + 19) + r;
  }

  lemma By4(year: nat)
    ensures (year + 1900) % 4 == year % 4
  {
    var k, r := year / 4, year % 4;
    assert year + 1900 == 4 * (k + 475) + r;
  }

  /** Leap years, by the year since 1900. */
  lemma LeapSince1900(year: nat)
    ensures IsLeap(year + 1900) <==> year % 400 == 100 || (year % 100 != 0 && year % 4 == 0)
  {
    By400(year);
    By100(year);
    By4(year);
  }

  lemma Multiples(year: nat)
    ensures year % 100 == 0 ==> year % 4 == 0
    ensures year % 400 == 100 ==> year % 100 == 0
    ensures year % 400 == 0 ==> year % 100 == 0
  {
    if year % 100 == 0 { Hundreds(year / 100); }
    if year % 400 == 100 { FourHundreds(year / 400, 100); }
    if year % 400 == 0 { FourHundreds(year / 400, 0); }
  }

  lemma Hundreds(h: nat)
    ensures 100 * h % 4 == 0
  {
    FourTimes(25 * h);
    assert 100 * h == 4 * (25 * h);
  }

  lemma FourTimes(k: nat)
    ensures 4 * k % 4 == 0
  {
  }

  lemma FourHundreds(q: nat, r: nat)
    requires r == 0 || r == 100
    ensures (400 * q + r) % 100 == 0
  {
    HundredTimes(4 * q + r / 100);
    assert 400 * q + r == 100 * (4 * q + r / 100);
  }

  lemma HundredTimes(k: nat)
    ensures 100 * k % 100 == 0
  {
  }

  lemma LeapParts(year: nat)
    requires year >= 70
    ensures YearLength(year + 1900) == 365 + (if year % 4 == 0 then 1 else 0)
      - (if year % 100 == 0 && year >= 200 then 1 else 0)
      + (if year % 400 == 100 && year >= 500 then 1 else 0)
  {
    hide IsLeap;
    LeapSince1900(year);
    Multiples(year);
    if year % 100 == 0 && year < 200 { assert year == 100; }
    if year % 400 == 100 && year < 500 { assert year == 100; }
  }

  /** The year-start count is the exact Gregorian one, for every year from 1970 on. */
  lemma {:induction false} YearStartExact(year: int)
    requires year >= 70
    ensures YearDays(year) == DaysToYear(year + 1900)
    decreases year
  {
    if year > 70 {
      YearStartExact(year - 1);
      YearStep(year - 1);
    }
  }

  // ---- the whole result

  function Exact(tm: Tm): (t: int)
    requires tm.year >= 70 && 0 <= tm.mon < 12
  {
    ((DayNumber(tm.year + 1900, tm.mon, tm.mday) * 24 + tm.hour) * 60 + tm.min) * 60 + tm.sec
  }

  /** tm_to_time: exact precisely in January and February, and in years on whose leap day
      `year` and `year + 1900` agree. */
  method TmToTime(tm: Tm) returns (t: int)
    requires tm.year >= 70 && 0 <= tm.mon < 12
    ensures t == Exact(tm) <==> tm.mon < 2 || IsLeap(tm.year) == IsLeap(tm.year + 1900)
    ensures t == Exact(tm) + if tm.mon < 2 || IsLeap(tm.year) == IsLeap(tm.year + 1900) then 0
                             else if IsLeap(tm.year) then 86400 else -86400
  {
    t := (tm.year - 70) * 365;
    t := t + (tm.year - 1 - 68) / 4;
    if tm.year > 200 { t := t - (tm.year - 1 - 100) / 100; }
    if tm.year > 500 { t := t + (tm.year - 1 - 100) / 400; }
    YearStartExact(tm.year);
    assert t == DaysToYear(tm.year + 1900);
    MonthTable(tm.year + 1900, tm.mon);
    t := t + MonthTab(tm.mon);
    if tm.mon >= 2 && IsLeap(tm.year) { t := t + 1; }
    t := t + tm.mday - 1;
    t := t * 24 + tm.hour;
    t := t * 60 + tm.min;
    t := t * 60 + tm.sec;
  }

  /** Where the two disagree: years 2000 and 2300 of every four centuries. */
  lemma LeapDisagrees(year: nat)
    requires year >= 70
    ensures IsLeap(year) == IsLeap(year + 1900) <==> year % 400 != 0 && year % 400 != 100
    ensures year % 400 == 100 ==> !IsLeap(year) && IsLeap(year + 1900)
    ensures year % 400 == 0 ==> IsLeap(year) && !IsLeap(year + 1900)
  {
    LeapSince1900(year);
    Multiples(year);
  }

  /** 1 March 2000 comes out as 29 February. */
  lemma MarchOf2000()
    ensures IsLeap(100) != IsLeap(2000)
    ensures DayNumber(2000, 2, 1) == DayNumber(2000, 1, 29) + 1
  {
  }
}
