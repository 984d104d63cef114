/**
 * Calendar timestamps (src/output.rs, `Civil::from_unix`), checked against a
 * calendar defined by nothing but the lengths of the Gregorian months.
 */
module Calendars {
  import opened Base

  const SECONDS_PER_DAY := 86_400

  datatype Date = Date(year: int, month: int, day: int)

  datatype Civil = Civil(date: Date, hour: int, minute: int, second: int, micros: nat)

  // ---------------------------------------------------------------- the code

  /** Days from the first of March of year zero of an era to the first of March of year `y`. */
  function MarchStart(y: int): int {
    365 * y + y / 4 - y / 100
  }

  /** A date given by a year counted from March and the day of that year. */
  function FromMarchYear(y: int, doy: int): Date {
    var mp := (5 * doy + 2) / 153;
    var m := if mp < 10 then mp + 3 else mp - 9;
    Date(if m <= 2 then y + 1 else y, m, doy - (153 * mp + 2) / 5 + 1)
  }

  /** The March year, within its era, that holds a day of the era. */
  function YearInEra(doe: int): int {
    (doe - doe / 1460 + doe / 36_524 - doe / 146_096) / 365
  }

  /**
   * The calendar date of a day counted from 1970-01-01; `/` and `%` by a positive number floor, as `div_euclid` does.
   */
  function DateOfDay(days: int): Date {
    var z := days + 719_468;
    var era := z / 146_097;
    var doe := z % 146_097;
    var yoe := YearInEra(doe);
    FromMarchYear(yoe + era * 400, doe - MarchStart(yoe))
  }

  function FromUnix(secs: int, micros: nat): Civil {
    var rem := secs % SECONDS_PER_DAY;
    Civil(DateOfDay(secs / SECONDS_PER_DAY), rem / 3600, (rem % 3600) / 60, rem % 60, micros)
  }

  // ----------------------------------------------------------- the calendar

  predicate IsLeap(year: int) {
    year % 4 == 0 && (year % 100 != 0 || year % 400 == 0)
  }

  function DaysInMonth(year: int, month: int): int {
    if month == 2 then (if IsLeap(year) then 29 else 28)
    else if month in {4, 6, 9, 11} then 30
    else 31
  }

  predicate ValidDate(d: Date) {
    1 <= d.month <= 12 && 1 <= d.day <= DaysInMonth(d.year, d.month)
  }

  predicate ValidCivil(c: Civil) {
    ValidDate(c.date) && 0 <= c.hour < 24 && 0 <= c.minute < 60 && 0 <= c.second < 60
  }

  function Tomorrow(d: Date): Date {
    if d.day < DaysInMonth(d.year, d.month) then d.(day := d.day + 1)
    else if d.month < 12 then Date(d.year, d.month + 1, 1)
    else Date(d.year + 1, 1, 1)
  }

  predicate Earlier(a: Date, b: Date) {
    || a.year < b.year
    || (a.year == b.year && (a.month < b.month || (a.month == b.month && a.day < b.day)))
  }

  predicate Before(a: Civil, b: Civil) {
    || Earlier(a.date, b.date)
    || (a.date == b.date &&
        (a.hour < b.hour || (a.hour == b.hour && (a.minute < b.minute ||
          (a.minute == b.minute && a.second < b.second)))))
  }

  // ----------------------------------------------------------- the day count

  function DaysBeforeMonth(year: int, month: int): int
    requires 1 <= month <= 12
  {
    if month == 1 then 0 else DaysBeforeMonth(year, month - 1) + DaysInMonth(year, month - 1)
  }

  function LeapYearsThrough(year: int): int {
    year / 4 - year / 100 + year / 400
  }

  /** Days from 1970-01-01 to a date: whole years, then whole months, then days. */
  function DayNumber(d: Date): int
    requires ValidDate(d)
  {
    365 * (d.year - 1970) + LeapYearsThrough(d.year - 1) - LeapYearsThrough(1969)
    + DaysBeforeMonth(d.year, d.month) + d.day - 1
  }

  lemma QuotientSteps(year: int, k: int)
    requires k > 0
    ensures year / k == (year - 1) / k + (if year % k == 0 then 1 else 0)
  {
    var q, r := year / k, year % k;
    assert year == q * k + r;
    if r == 0 {
      assert year - 1 == (q - 1) * k + (k - 1);
      QuotientIsUnique(year - 1, k, q - 1, k - 1);
    } else {
      QuotientIsUnique(year - 1, k, q, r - 1);
    }
  }

  lemma LeapYearsCount(year: int)
    ensures LeapYearsThrough(year) == LeapYearsThrough(year - 1) + (if IsLeap(year) then 1 else 0)
  {
    QuotientSteps(year, 4);
    QuotientSteps(year, 100);
    QuotientSteps(year, 400);
  }

  lemma MonthTable(year: int)
    ensures DaysBeforeMonth(year, 1) == 0 && DaysBeforeMonth(year, 2) == 31
    ensures DaysBeforeMonth(year, 3) == 31 + DaysInMonth(year, 2)
    ensures forall m :: 3 <= m <= 12 ==> DaysBeforeMonth(year, m) == DaysBeforeMonth(year, 3) + (153 * (m - 3) + 2) / 5
  {
    assert DaysBeforeMonth(year, 4) == DaysBeforeMonth(year, 3) + 31;
    assert DaysBeforeMonth(year, 5) == DaysBeforeMonth(year, 4) + 30;
    assert DaysBeforeMonth(year, 6) == DaysBeforeMonth(year, 5) + 31;
    assert DaysBeforeMonth(year, 7) == DaysBeforeMonth(year, 6) + 30;
    assert DaysBeforeMonth(year, 8) == DaysBeforeMonth(year, 7) + 31;
    assert DaysBeforeMonth(year, 9) == DaysBeforeMonth(year, 8) + 31;
    assert DaysBeforeMonth(year, 10) == DaysBeforeMonth(year, 9) + 30;
    assert DaysBeforeMonth(year, 11) == DaysBeforeMonth(year, 10) + 31;
    assert DaysBeforeMonth(year, 12) == DaysBeforeMonth(year, 11) + 30;
  }

  lemma MonthStep(year: int, month: int)
    requires 1 <= month < 12
    ensures DaysBeforeMonth(year, month + 1) == DaysBeforeMonth(year, month) + DaysInMonth(year, month)
  {
  }

  /** The day count is what counting days means: it starts at zero and each new day adds one. */
  lemma DayNumberCounts(d: Date)
    requires ValidDate(d)
    ensures DayNumber(Date(1970, 1, 1)) == 0
    ensures ValidDate(Tomorrow(d)) && DayNumber(Tomorrow(d)) == DayNumber(d) + 1
  {
    hide IsLeap, LeapYearsThrough, DaysBeforeMonth;
    LeapYearsFrom1970();
    MonthTable(1970);
    MonthTable(d.year);
    if d.month < 12 {
      MonthStep(d.year, d.month);
    } else {
      MonthTable(d.year + 1);
    }
    LeapYearsCount(d.year);
  }

  // ------------------------------------------- years and months from the day

  /** Inside a century of the era: `k` four-year groups and `t` days into the next. */
  lemma YearOfCentury(c: int, k: int, t: int, yoe: int)
    requires 0 <= c < 4 && 0 <= k < 25 && 0 <= t < 1461 && 1461 * k + t < 36_524
    requires var doe := 36_524 * c + 1461 * k + t;
             yoe == (doe - doe / 1460 + c) / 365
    ensures yoe == 100 * c + 4 * k + (if t < 1095 then t / 365 else 3)
  {
    var doe := 36_524 * c + 1461 * k + t;
    var b := if 24 * c + k + t >= 1460 then 1 else 0;
    QuotientIsUnique(doe, 1460, 25 * c + k + b, 24 * c + k + t - 1460 * b);
    var v := if t < 1095 then t / 365 else 3;
    QuotientIsUnique(doe - doe / 1460 + c, 365, 100 * c + 4 * k + v, t - b - 365 * v);
  }

  lemma MarchStartOfGroup(c: int, k: int, v: int)
    requires 0 <= k < 25 && 0 <= v < 4
    ensures MarchStart(100 * c + 4 * k + v) == 36_524 * c + 1461 * k + 365 * v
    ensures v < 3 ==> MarchStart(100 * c + 4 * k + v + 1) == 36_524 * c + 1461 * k + 365 * (v + 1)
    ensures v == 3 ==> MarchStart(100 * c + 4 * k + v + 1) >= 36_524 * c + 1461 * (k + 1) - (if k == 24 then 1 else 0)
  {
    var y := 100 * c + 4 * k + v;
    QuotientIsUnique(y, 4, 25 * c + k, v);
    QuotientIsUnique(y, 100, c, 4 * k + v);
    QuotientSteps(y + 1, 4);
    QuotientSteps(y + 1, 100);
    if v < 3 {
      QuotientIsUnique(y + 1, 4, 25 * c + k, v + 1);
      QuotientIsUnique(y + 1, 100, c, 4 * k + v + 1);
    } else if k < 24 {
      QuotientIsUnique(y + 1, 4, 25 * c + k + 1, 0);
      QuotientIsUnique(y + 1, 100, c, 4 * k + v + 1);
    } else {
      QuotientIsUnique(y + 1, 4, 25 * c + k + 1, 0);
      QuotientIsUnique(y + 1, 100, c + 1, 0);
    }
  }

  lemma YearOfGroup(c: int, k: int, t: int, yoe: int)
    requires 0 <= c < 4 && 0 <= k < 25 && 0 <= t < 1461 && 1461 * k + t < 36_524
    requires var doe := 36_524 * c + 1461 * k + t;
             yoe == (doe - doe / 1460 + c) / 365
    ensures var doe := 36_524 * c + 1461 * k + t;
      0 <= yoe < 400 && MarchStart(yoe) <= doe < (if yoe == 399 then 146_097 else MarchStart(yoe + 1))
  {
    hide MarchStart;
    YearOfCentury(c, k, t, yoe);
    MarchStartOfGroup(c, k, if t < 1095 then t / 365 else 3);
  }

  /** The division that finds the year of the era lands on the March year holding the day. */
  lemma YearOfEra(doe: int, yoe: int)
    requires 0 <= doe < 146_097
    requires yoe == YearInEra(doe)
    ensures 0 <= yoe < 400 && MarchStart(yoe) <= doe
    ensures doe < (if yoe == 399 then 146_097 else MarchStart(yoe + 1))
  {
    if doe < 146_096 {
      var c, r := doe / 36_524, doe % 36_524;
      YearOfGroup(c, r / 1461, r % 1461, yoe);
    }
  }

  /** The division that finds the month lands on the month holding the day of the March year. */
  lemma MonthOfYear(doy: int, mp: int)
    requires 0 <= doy < 366 && mp == (5 * doy + 2) / 153
    ensures 0 <= mp < 12 && (153 * mp + 2) / 5 <= doy
    ensures doy < (if mp == 11 then 366 else (153 * (mp + 1) + 2) / 5)
  {
  }

  lemma FromMarchYearIsExact(y: int, doy: int)
    requires 0 <= doy < 365 + (if IsLeap(y + 1) then 1 else 0)
    ensures ValidDate(FromMarchYear(y, doy))
    ensures DayNumber(FromMarchYear(y, doy)) == 365 * y + LeapYearsThrough(y) + doy - 719_468
  {
    hide IsLeap, LeapYearsThrough, DaysBeforeMonth;
    var mp := (5 * doy + 2) / 153;
    MonthOfYear(doy, mp);
    LeapYearsFrom1970();
    if mp < 10 {
      MonthTable(y);
      LeapYearsCount(y);
      MarchMonthLength(y, mp);
    } else {
      MonthTable(y + 1);
    }
  }

  lemma LeapYearsFrom1970()
    ensures LeapYearsThrough(1969) == 477
  {
  }

  lemma MarchMonthLength(y: int, mp: int)
    requires 0 <= mp < 10
    ensures DaysInMonth(y, mp + 3) == (153 * (mp + 1) + 2) / 5 - (153 * mp + 2) / 5
  {
  }

  lemma MarchYearLength(yoe: int)
    requires 0 <= yoe < 400
    ensures (if yoe == 399 then 146_097 else MarchStart(yoe + 1)) - MarchStart(yoe)
         == 365 + (if IsLeap(yoe + 1) then 1 else 0)
  {
    QuotientSteps(yoe + 1, 4);
    QuotientSteps(yoe + 1, 100);
  }

  lemma EraSplits(era: int, yoe: int)
    requires 0 <= yoe < 400
    ensures 365 * (yoe + era * 400) + LeapYearsThrough(yoe + era * 400) == 146_097 * era + MarchStart(yoe)
    ensures IsLeap(yoe + era * 400 + 1) == IsLeap(yoe + 1)
  {
    WholeEras(yoe, era);
    WholeEras(yoe + 1, era);
  }

  /** Four hundred years are whole numbers of four years, of centuries and of eras. */
  lemma WholeEras(y: int, era: int)
    ensures var z := y + era * 400;
      && z / 4 == y / 4 + era * 100 && z % 4 == y % 4
      && z / 100 == y / 100 + era * 4 && z % 100 == y % 100
      && z / 400 == y / 400 + era && z % 400 == y % 400
  {
    QuotientIsUnique(y + era * 400, 4, y / 4 + era * 100, y % 4);
    QuotientIsUnique(y + era * 400, 100, y / 100 + era * 4, y % 100);
    QuotientIsUnique(y + era * 400, 400, y / 400 + era, y % 400);
  }

  // ------------------------------------------------------------ the theorems

  /** Every day, in either direction without limit, is turned into the valid date with that day count. */
  lemma DateOfDayIsExact(days: int)
    ensures ValidDate(DateOfDay(days))
    ensures DayNumber(DateOfDay(days)) == days
  {
    hide LeapYearsThrough, IsLeap, DayNumber, ValidDate, MarchStart, FromMarchYear, YearInEra;
    var z := days + 719_468;
    var era := z / 146_097;
    var doe := z % 146_097;
    var yoe := YearInEra(doe);
    YearOfEra(doe, yoe);
    EraSplits(era, yoe);
    var doy := doe - MarchStart(yoe);
    MarchYearLength(yoe);
    FromMarchYearIsExact(yoe + era * 400, doy);
  }

  lemma DayNumberGrowsInMonths(year: int, m: int, n: int)
    requires 1 <= m < n <= 12
    ensures DaysBeforeMonth(year, m) + DaysInMonth(year, m) <= DaysBeforeMonth(year, n)
  {
    if m + 1 < n {
      DayNumberGrowsInMonths(year, m, n - 1);
    }
  }

  /** Every date of a year comes before the year ends, and none before it starts. */
  lemma DayInsideYear(d: Date)
    requires ValidDate(d)
    ensures 0 <= DaysBeforeMonth(d.year, d.month) + d.day - 1 < 365 + (if IsLeap(d.year) then 1 else 0)
  {
    hide IsLeap;
    MonthTable(d.year);
  }

  lemma LeapYearsGrow(a: int, b: int)
    requires a <= b
    ensures LeapYearsThrough(a) <= LeapYearsThrough(b)
    decreases b - a
  {
    if a < b {
      LeapYearsGrow(a, b - 1);
      LeapYearsCount(b);
    }
  }

  lemma DayNumberGrows(a: Date, b: Date)
    requires ValidDate(a) && ValidDate(b) && Earlier(a, b)
    ensures DayNumber(a) < DayNumber(b)
  {
    hide IsLeap, LeapYearsThrough, DaysBeforeMonth;
    if a.year < b.year {
      DayInsideYear(a);
      DayInsideYear(b);
      LeapYearsCount(a.year);
      LeapYearsGrow(a.year, b.year - 1);
    } else if a.month < b.month {
      DayNumberGrowsInMonths(a.year, a.month, b.month);
    }
  }

  /** The two directions are inverse: a valid date is recovered from its day count. */
  lemma DayOfDateIsExact(d: Date)
    requires ValidDate(d)
    ensures DateOfDay(DayNumber(d)) == d
  {
    var e := DateOfDay(DayNumber(d));
    DateOfDayIsExact(DayNumber(d));
    if Earlier(d, e) {
      DayNumberGrows(d, e);
    } else if Earlier(e, d) {
      DayNumberGrows(e, d);
    }
  }

  /** The dates are the calendar's own: day zero is 1970-01-01 and each day is the morrow of the one before. */
  lemma DatesFollowTheCalendar(days: int)
    ensures DateOfDay(0) == Date(1970, 1, 1)
    ensures DateOfDay(days + 1) == Tomorrow(DateOfDay(days))
  {
    hide DateOfDay, DayNumber, Tomorrow;
    DateOfDayIsExact(days);
    DayNumberCounts(DateOfDay(days));
    DayOfDateIsExact(Tomorrow(DateOfDay(days)));
    DayOfDateIsExact(Date(1970, 1, 1));
  }

  function ToUnix(c: Civil): int
    requires ValidCivil(c)
  {
    DayNumber(c.date) * SECONDS_PER_DAY + c.hour * 3600 + c.minute * 60 + c.second
  }

  lemma SecondIs(a: int)
    ensures a % 60 == a % 3600 % 60
  {
    QuotientIsUnique(a, 60, 60 * (a / 3600) + a % 3600 / 60, a % 3600 % 60);
  }

  /** Every timestamp gives valid fields from which the timestamp can be computed back. */
  lemma TimestampIsExact(secs: int, micros: nat)
    ensures ValidCivil(FromUnix(secs, micros))
    ensures ToUnix(FromUnix(secs, micros)) == secs
  {
    hide DateOfDay, DayNumber;
    DateOfDayIsExact(secs / SECONDS_PER_DAY);
    var rem := secs % SECONDS_PER_DAY;
    SecondIs(rem);
  }

  /** And every valid calendar time is reached, from exactly one timestamp. */
  lemma CivilTimeIsExact(c: Civil)
    requires ValidCivil(c)
    ensures FromUnix(ToUnix(c), c.micros) == c
  {
    hide DateOfDay, DayNumber;
    var secs := ToUnix(c);
    var rem := c.hour * 3600 + c.minute * 60 + c.second;
    QuotientIsUnique(secs, SECONDS_PER_DAY, DayNumber(c.date), rem);
    QuotientIsUnique(rem, 3600, c.hour, c.minute * 60 + c.second);
    QuotientIsUnique(rem, 60, c.hour * 60 + c.minute, c.second);
    DayOfDateIsExact(c.date);
  }

  lemma ClockOrder(a: int, b: int)
    requires 0 <= a < b < SECONDS_PER_DAY
    ensures a / 3600 <= b / 3600
    ensures a / 3600 == b / 3600 ==> a % 3600 / 60 <= b % 3600 / 60
    ensures a / 3600 == b / 3600 && a % 3600 / 60 == b % 3600 / 60 ==> a % 60 < b % 60
  {
    MinuteOrder(a % 3600, b % 3600);
    SecondIs(a);
    SecondIs(b);
  }

  lemma MinuteOrder(x: int, y: int)
    ensures x < y ==> x / 60 <= y / 60
    ensures x < y && x / 60 == y / 60 ==> x % 60 < y % 60
  {
  }

  lemma LaterIsBefore(a: int, b: int, micros: nat)
    requires a < b
    ensures Before(FromUnix(a, micros), FromUnix(b, micros))
  {
    hide DateOfDay, DayNumber, Earlier, ValidDate;
    var m, n := a / SECONDS_PER_DAY, b / SECONDS_PER_DAY;
    if m < n {
      DateOfDayIsExact(m);
      DateOfDayIsExact(n);
      DaysInOrder(DateOfDay(m), DateOfDay(n));
    } else {
      ClockOrder(a % SECONDS_PER_DAY, b % SECONDS_PER_DAY);
    }
  }

  lemma DaysInOrder(x: Date, y: Date)
    requires ValidDate(x) && ValidDate(y) && DayNumber(x) < DayNumber(y)
    ensures Earlier(x, y)
  {
    hide DayNumber;
    if Earlier(y, x) {
      DayNumberGrows(y, x);
    }
  }

  /** Timestamps and their calendar times are in the same order. */
  lemma LaterIsLater(a: int, b: int, micros: nat)
    ensures a < b <==> Before(FromUnix(a, micros), FromUnix(b, micros))
  {
    hide FromUnix;
    if a < b {
      LaterIsBefore(a, b, micros);
    } else if b < a {
      LaterIsBefore(b, a, micros);
    }
  }
}
