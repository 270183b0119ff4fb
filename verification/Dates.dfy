/**
 TPC-H dates: a linear day index that starts at 92001 for 1 January 1992, the YYDDD form it is turned into, and
 its year, month and day.  Years count from 1900; integers are unbounded.
 */
module Dates {

  const MIN_GENERATE_DATE: int := 92001
  const TOTAL_DATE_RANGE: int := 2557
  const CURRENT_DATE: int := 95168
  const UNIX_EPOCH_OFFSET: int := 8035
  const MONTH_YEAR_DAY_START: seq<int> := [0, 31, 59, 90, 120, 151, 181, 212, 243, 273, 304, 334, 365]

  /** Every fourth year but no century; 2000 is not a leap year here. */
  predicate IsLeapYear(year: int) {
    year % 4 == 0 && year % 100 != 0
  }

  function LeapYearAdjustment(year: int, month: int): int {
    if IsLeapYear(year) && month >= 2 then 1 else 0
  }

  function ToUnixEpoch(date: int): int {
    date - MIN_GENERATE_DATE + UNIX_EPOCH_OFFSET
  }

  function DaysIn(year: int): nat {
    if IsLeapYear(year) then 366 else 365
  }

  /** Days from the start of 1992 to the start of the year. */
  function DaysBefore(year: nat): nat
    requires year >= 92
  {
    if year == 92 then 0 else DaysBefore(year - 1) + DaysIn(year - 1)
  }

  datatype YearDay = YearDay(year: nat, day: nat)

  predicate IsYearDay(v: YearDay) {
    v.year >= 92 && 1 <= v.day <= DaysIn(v.year)
  }

  /** The day `offset` days after the first day of the year. */
  function DayAfter(year: nat, offset: nat): YearDay
    decreases offset
  {
    if offset < DaysIn(year) then YearDay(year, offset + 1) else DayAfter(year + 1, offset - DaysIn(year))
  }

  /** YYDDD; an index before 92001 is left as it is. */
  function Julian(date: int): int {
    if date < MIN_GENERATE_DATE then date
    else var v := DayAfter(92, date - MIN_GENERATE_DATE); v.year * 1000 + v.day
  }

  method ToJulian(date: int) returns (julian: int)
    ensures julian == Julian(date)
  {
    var offset := date - MIN_GENERATE_DATE;
    var result := MIN_GENERATE_DATE;
    ghost var year: nat := 92;
    while true
      invariant result == year * 1000 + 1 && year >= 92
      invariant if date < MIN_GENERATE_DATE then year == 92 && offset == date - MIN_GENERATE_DATE
                else offset >= 0 && DayAfter(year, offset) == DayAfter(92, date - MIN_GENERATE_DATE)
      decreases offset
    {
      var y := result / 1000;
      var yearEnd := y * 1000 + 365 + if IsLeapYear(y) then 1 else 0;
      if result + offset <= yearEnd {
        break;
      }
      offset := offset - (yearEnd - result + 1);
      result := result + 1000;
      year := year + 1;
    }
    julian := result + offset;
  }

  predicate IsInPast(date: int) {
    Julian(date) <= CURRENT_DATE
  }

  // ---------------------------------------------------------------- day counting

  /** Days since the start of 1992. */
  function DayNumber(v: YearDay): nat
    requires IsYearDay(v)
  {
    DaysBefore(v.year) + v.day - 1
  }

  /** Turning an index into a year and day and counting the days back gives the index. */
  lemma {:induction false} DayAfterCounts(year: nat, offset: nat)
    requires year >= 92
    ensures IsYearDay(DayAfter(year, offset)) && DayAfter(year, offset).year >= year
    ensures DayNumber(DayAfter(year, offset)) == DaysBefore(year) + offset
    decreases offset
  {
    if offset >= DaysIn(year) {
      DayAfterCounts(year + 1, offset - DaysIn(year));
    }
  }

  /** Every year and day is the image of its day number. */
  lemma {:induction false} DayAfterOnto(v: YearDay, year: nat)
    requires IsYearDay(v) && 92 <= year <= v.year
    ensures DayNumber(v) >= DaysBefore(year)
    ensures DayAfter(year, DayNumber(v) - DaysBefore(year)) == v
    decreases v.year - year
  {
    if year < v.year {
      DayAfterOnto(v, year + 1);
    }
  }

  lemma JulianRoundTrip(v: YearDay)
    requires IsYearDay(v)
    ensures Julian(MIN_GENERATE_DATE + DayNumber(v)) == v.year * 1000 + v.day
  {
    DayAfterOnto(v, 92);
  }

  /** For a date from 92001 on, YYDDD is a year and one of its days, and they count back to the index. */
  lemma JulianIsValid(date: int)
    requires date >= MIN_GENERATE_DATE
    ensures var v := YearDay(Julian(date) / 1000, Julian(date) % 1000);
            IsYearDay(v) && v == DayAfter(92, date - MIN_GENERATE_DATE) && MIN_GENERATE_DATE + DayNumber(v) == date
  {
    DayAfterCounts(92, date - MIN_GENERATE_DATE);
  }

  lemma {:induction false} DaysBeforeGrows(a: nat, b: nat)
    requires 92 <= a < b
    ensures DaysBefore(a) + DaysIn(a) <= DaysBefore(b)
  {
    if a + 1 < b {
      DaysBeforeGrows(a, b - 1);
    }
  }

  /** YYDDD keeps the order of days. */
  lemma JulianIncreases(a: int, b: int)
    requires a < b
    ensures Julian(a) < Julian(b)
  {
    if a >= MIN_GENERATE_DATE {
      JulianIsValid(a);
      JulianIsValid(b);
      var v, w := DayAfter(92, a - MIN_GENERATE_DATE), DayAfter(92, b - MIN_GENERATE_DATE);
      if w.year < v.year {
        DaysBeforeGrows(w.year, v.year);
      }
    } else if b >= MIN_GENERATE_DATE {
      JulianIsValid(b);
    }
  }

  /** IsInPast is a threshold on the index: day 168 of 1995. */
  lemma InPastIsThreshold(date: int)
    ensures IsInPast(date) <==> date <= 93264
  {
    var last := YearDay(95, 168);
    assert DaysBefore(95) == 1096;
    JulianRoundTrip(last);
    if date < 93264 {
      JulianIncreases(date, 93264);
    } else if date > 93264 {
      JulianIncreases(93264, date);
    }
  }

  // ---------------------------------------------------------------- year, month, day

  function MonthLength(year: int, month: int): nat {
    if month == 2 then (if IsLeapYear(year) then 29 else 28)
    else if month == 4 || month == 6 || month == 9 || month == 11 then 30
    else 31
  }

  function DaysBeforeMonth(year: int, month: nat): nat {
    if month <= 1 then 0 else DaysBeforeMonth(year, month - 1) + MonthLength(year, month - 1)
  }

  /** The table agrees with the lengths of the months. */
  lemma TableIsMonths(year: int, m: nat)
    requires m <= 12
    ensures |MONTH_YEAR_DAY_START| == 13
    ensures MONTH_YEAR_DAY_START[m] + LeapYearAdjustment(year, m) == DaysBeforeMonth(year, m + 1)
  {
    if m > 0 {
      TableIsMonths(year, m - 1);
    }
  }

  method ToYmd(date: int) returns (y: int, m: int, d: int)
    requires date >= MIN_GENERATE_DATE
    ensures 1 <= m <= 12 && 1 <= d <= MonthLength(y, m)
    ensures y * 1000 + DaysBeforeMonth(y, m) + d == Julian(date)
    ensures y == Julian(date) / 1000
  {
    hide Julian, IsLeapYear, DaysBefore, DayAfter;
    var julian := ToJulian(date);
    JulianIsValid(date);
    var day := julian % 1000;
    y := julian / 1000;
    m := 0;
    TableIsMonths(y, 0);
    TableIsMonths(y, 12);
    while day > MONTH_YEAR_DAY_START[m] + LeapYearAdjustment(y, m)
      invariant 0 <= m <= 12
      invariant m > 0 ==> day > DaysBeforeMonth(y, m)
      invariant MONTH_YEAR_DAY_START[m] + LeapYearAdjustment(y, m) == DaysBeforeMonth(y, m + 1)
      decreases 12 - m
    {
      m := m + 1;
      TableIsMonths(y, m);
    }
    TableIsMonths(y, m - 1);
    d := day - MONTH_YEAR_DAY_START[m - 1] - if IsLeapYear(y) && m > 2 then 1 else 0;
  }

  // ---------------------------------------------------------------- the civil calendar

  predicate IsGregorianLeap(year: int) {
    year % 4 == 0 && (year % 100 != 0 || year % 400 == 0)
  }

  /** Days from 1 January 1970 to 1 January of the year. */
  function CivilYearStart(year: nat): nat
    requires year >= 1970
  {
    if year == 1970 then 0 else CivilYearStart(year - 1) + if IsGregorianLeap(year - 1) then 366 else 365
  }

  function CivilMonthLength(year: int, month: int): nat {
    if month == 2 then (if IsGregorianLeap(year) then 29 else 28)
    else if month == 4 || month == 6 || month == 9 || month == 11 then 30
    else 31
  }

  function CivilMonthStart(year: int, month: nat): nat {
    if month <= 1 then 0 else CivilMonthStart(year, month - 1) + CivilMonthLength(year, month - 1)
  }

  /** Days from 1 January 1970 to a day of the Gregorian calendar; y counts from 1900. */
  function CivilDays(y: nat, m: nat, d: int): int
    requires y >= 92
  {
    CivilYearStart(1900 + y) + CivilMonthStart(1900 + y, m) + d - 1
  }

  /** Leap days that the Gregorian calendar has and IsLeapYear does not, before the year. */
  function MissedLeapDays(year: nat): nat
    requires year >= 92
  {
    if year == 92 then 0
    else MissedLeapDays(year - 1) + if IsGregorianLeap(1900 + year - 1) && !IsLeapYear(year - 1) then 1 else 0
  }

  lemma EpochOf1992()
    ensures CivilYearStart(1992) == UNIX_EPOCH_OFFSET
  {
    assert CivilYearStart(1974) == 1461;
    assert CivilYearStart(1978) == 2922;
    assert CivilYearStart(1982) == 4383;
    assert CivilYearStart(1986) == 5844;
    assert CivilYearStart(1990) == 7305;
  }

  lemma {:induction false} YearStarts(y: nat)
    requires y >= 92
    ensures CivilYearStart(1900 + y) == UNIX_EPOCH_OFFSET + DaysBefore(y) + MissedLeapDays(y)
  {
    if y == 92 {
      EpochOf1992();
    } else {
      YearStarts(y - 1);
    }
  }

  lemma {:induction false} MissedFrom2000(y: nat)
    requires y >= 92
    ensures MissedLeapDays(y) == 0 <==> y <= 100
  {
    if y > 92 {
      MissedFrom2000(y - 1);
    }
  }

  lemma {:induction false} MonthStarts(y: nat, m: nat)
    ensures CivilMonthStart(1900 + y, m) ==
            DaysBeforeMonth(y, m) + if m > 2 && IsGregorianLeap(1900 + y) && !IsLeapYear(y) then 1 else 0
  {
    if m > 1 {
      MonthStarts(y, m - 1);
    }
  }

  lemma {:induction false} AfterFebruary(y: nat, m: nat, d: nat)
    requires 1 <= m <= 12 && 1 <= d <= MonthLength(y, m)
    ensures DaysBeforeMonth(y, m) + d > DaysBeforeMonth(y, 3) <==> m > 2
    decreases m
  {
    assert DaysBeforeMonth(y, 2) == 31;
    assert DaysBeforeMonth(y, 3) == 31 + MonthLength(y, 2);
    if m > 3 {
      AfterFebruary(y, m - 1, 1);
    }
  }

  /**
   The year, month and day printed for an index name the day that ToUnixEpoch stores exactly up to
   28 February 2000; from then on the printed date runs ahead.
   */
  lemma CivilAgreesExactlyWhen(date: int, y: nat, m: nat, d: nat)
    requires date >= MIN_GENERATE_DATE && y == Julian(date) / 1000
    requires 1 <= m <= 12 && 1 <= d <= MonthLength(y, m)
    requires y * 1000 + DaysBeforeMonth(y, m) + d == Julian(date)
    ensures y >= 92
    ensures CivilDays(y, m, d) == ToUnixEpoch(date) <==> date <= 94981
    ensures CivilDays(y, m, d) >= ToUnixEpoch(date)
  {
    hide IsLeapYear, IsGregorianLeap, MissedLeapDays, DaysBefore, CivilMonthStart, CivilYearStart, DayAfter;
    JulianIsValid(date);
    YearStarts(y);
    MissedFrom2000(y);
    MonthStarts(y, m);
    AfterFebruary(y, m, d);
    LateLeapYear(y);
    var v := DayAfter(92, date - MIN_GENERATE_DATE);
    assert v == YearDay(y, DaysBeforeMonth(y, m) + d);
    EightYears();
    if y < 100 {
      DaysBeforeGrows(y, 100);
    } else if y > 100 {
      DaysBeforeGrows(100, y);
    }
  }

  lemma LateLeapYear(y: nat)
    ensures 92 <= y <= 100 ==> (IsGregorianLeap(1900 + y) && !IsLeapYear(y) <==> y == 100)
    ensures DaysBeforeMonth(100, 3) == 59 && !IsLeapYear(100)
  {
    assert DaysBeforeMonth(100, 2) == 31;
  }

  lemma EightYears()
    ensures DaysBefore(100) == 2922
  {
    assert DaysBefore(96) == 1461;
  }
}
