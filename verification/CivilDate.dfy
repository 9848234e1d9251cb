/**
  The access-log timestamp: civil date and time of day from Unix seconds, compared with
  the Gregorian calendar counted out year by year and month by month.
 */
module CivilDate {
  import opened Core

  datatype Date = Date(year: int, month: int, day: int)

  datatype Stamp = Stamp(date: Date, hour: int, minute: int, second: int)

  // --------------------------------------------------- the source's formula

  /** Civil-from-days, on the number of days since 1970-01-01. */
  function CivilFromDays(days: nat): Date {
    var z := days + 719_468;
    FromEra(z / 146_097, z % 146_097)
  }

  /** The date of a day of a 400-year era. */
  function FromEra(era: nat, doe: int): Date {
    var yoe := YearOfEra(doe);
    FromMarchYear(yoe + era * 400, doe - (365 * yoe + yoe / 4 - yoe / 100))
  }

  /** Month and day from the day of a year that begins in March. */
  function FromMarchYear(y: int, doy: int): Date {
    var mp := (5 * doy + 2) / 153;
    var d := doy - (153 * mp + 2) / 5 + 1;
    var m := if mp < 10 then mp + 3 else mp - 9;
    Date(if m <= 2 then y + 1 else y, m, d)
  }

  function YearOfEra(doe: int): int {
    (doe - doe / 1460 + doe / 36_524 - doe / 146_096) / 365
  }

  function ClfStamp(unixSeconds: u64): Stamp {
    var secsOfDay := unixSeconds % 86_400;
    Stamp(CivilFromDays(unixSeconds / 86_400), secsOfDay / 3600, secsOfDay % 3600 / 60, secsOfDay % 60)
  }

  // ------------------------------------------------------------ the calendar

  predicate IsLeap(year: int) {
    year % 4 == 0 && (year % 100 != 0 || year % 400 == 0)
  }

  function DaysInYear(year: int): int {
    if IsLeap(year) then 366 else 365
  }

  function DaysInMonth(year: int, month: int): int
    requires 1 <= month <= 12
  {
    if month == 2 then (if IsLeap(year) then 29 else 28)
    else if month == 4 || month == 6 || month == 9 || month == 11 then 30
    else 31
  }

  predicate ValidDate(date: Date) {
    && 1970 <= date.year
    && 1 <= date.month <= 12
    && 1 <= date.day <= DaysInMonth(date.year, date.month)
  }

  /** Days from 1970-01-01 to January the first of a year, one year at a time. */
  function DaysBeforeYear(year: int): int
    requires 1970 <= year
    decreases year
  {
    if year == 1970 then 0 else DaysBeforeYear(year - 1) + DaysInYear(year - 1)
  }

  /** Days from January the first to the first of a month, one month at a time. */
  function DaysBeforeMonth(year: int, month: int): int
    requires 1 <= month <= 13
    decreases month
  {
    if month == 1 then 0 else DaysBeforeMonth(year, month - 1) + DaysInMonth(year, month - 1)
  }

  /** The number of days since 1970-01-01 of a calendar date. */
  function DayNumber(date: Date): int
    requires ValidDate(date)
  {
    DaysBeforeYear(date.year) + DaysBeforeMonth(date.year, date.month) + date.day - 1
  }

  // --------------------------------------------- counting by March-based years

  /** Leap days up to and including the February of year `k`. */
  function LeapDays(k: int): int {
    k / 4 - k / 100 + k / 400
  }

  /** Days from 0000-03-01 to March the first of year `k`. */
  function MarchDays(k: int): int {
    365 * k + LeapDays(k)
  }

  lemma LeapDayCount(k: int)
    ensures LeapDays(k) - LeapDays(k - 1) == (if IsLeap(k) then 1 else 0)
  {
    assert k / 4 - (k - 1) / 4 == if k % 4 == 0 then 1 else 0;
    assert k / 100 - (k - 1) / 100 == if k % 100 == 0 then 1 else 0;
    assert k / 400 - (k - 1) / 400 == if k % 400 == 0 then 1 else 0;
    Nested(k);
  }

  lemma Nested(k: int)
    ensures k % 400 == 0 ==> k % 100 == 0
    ensures k % 100 == 0 ==> k % 4 == 0
  {
    Multiple(4 * (k / 400), 100);
    Multiple(25 * (k / 100), 4);
  }

  lemma Multiple(q: int, n: int)
    requires 0 < n
    ensures n * q % n == 0
  {
    var r := n * q % n;
    var d := q - n * q / n;
    assert r == n * d;
  }

  /** Counting years one by one agrees with counting leap days by division. */
  lemma {:induction false} DaysBeforeYearClosed(year: int)
    requires 1970 <= year
    ensures DaysBeforeYear(year) == MarchDays(year - 1) + 306 - 719_468
    decreases year
  {
    if year > 1970 {
      DaysBeforeYearClosed(year - 1);
      LeapDayCount(year - 1);
    }
  }

  /** A day of the era as century, four-year cycle, year of the cycle and day of that year. */
  predicate Splits(doe: int, c: int, q: int, u: int, d: int) {
    && 0 <= c <= 3 && 0 <= q <= 24 && 0 <= u <= 3
    && 0 <= d <= 365 && (d == 365 ==> u == 3)
    && (q == 24 && d == 365 ==> c == 3)
    && doe == 36_524 * c + 1461 * q + 365 * u + d
  }

  lemma SplitDay(doe: int) returns (c: int, q: int, u: int, d: int)
    requires 0 <= doe < 146_097
    ensures Splits(doe, c, q, u, d)
  {
    c := Min(doe / 36_524, 3);
    var r := doe - 36_524 * c;
    q := r / 1461;
    var t := r - 1461 * q;
    u := Min(t / 365, 3);
    d := t - 365 * u;
  }

  lemma YearOfSplit(doe: int, c: int, q: int, u: int, d: int)
    requires Splits(doe, c, q, u, d)
    ensures YearOfEra(doe) == 100 * c + 4 * q + u
  {
    var t := 365 * u + d;
    assert doe / 36_524 - doe / 146_096 == c;
    assert doe == 1460 * (25 * c + q) + (24 * c + q + t);
    var carry := if 24 * c + q + t >= 1460 then 1 else 0;
    assert doe / 1460 == 25 * c + q + carry;
    assert doe - doe / 1460 + c == 365 * (100 * c + 4 * q + u) + (d - carry);
    assert 0 <= d - carry < 365;
  }

  lemma MarchDaysOfSplit(c: int, q: int, u: int)
    requires 0 <= c <= 3 && 0 <= q <= 24 && 0 <= u <= 3
    ensures MarchDays(100 * c + 4 * q + u) == 36_524 * c + 1461 * q + 365 * u
    ensures MarchDays(100 * c + 4 * q + u + 1) - MarchDays(100 * c + 4 * q + u)
         == if u == 3 && (q == 24 ==> c == 3) then 366 else 365
  {
    var k := 100 * c + 4 * q + u;
    assert k / 4 == 25 * c + q && k / 100 == c && k / 400 == 0;
    if u < 3 {
      assert (k + 1) / 4 == 25 * c + q && (k + 1) / 100 == c && (k + 1) / 400 == 0;
    } else if q < 24 {
      assert (k + 1) / 4 == 25 * c + q + 1 && (k + 1) / 100 == c && (k + 1) / 400 == 0;
    } else {
      assert (k + 1) / 4 == 25 * c + 25 && (k + 1) / 100 == c + 1;
    }
  }

  /** The year of the era is the one whose March-based span holds the day. */
  lemma YearOfEraIsRight(doe: int)
    requires 0 <= doe < 146_097
    ensures 0 <= YearOfEra(doe) <= 399
    ensures MarchDays(YearOfEra(doe)) <= doe < MarchDays(YearOfEra(doe) + 1)
  {
    var c, q, u, d := SplitDay(doe);
    YearOfSplit(doe, c, q, u, d);
    MarchDaysOfSplit(c, q, u);
  }

  // ------------------------------------------------------- months from March

  /** Where a March-based month starts in its year. */
  function MonthOffset(mp: int): int {
    (153 * mp + 2) / 5
  }

  function MonthOf(mp: int): int {
    if mp < 10 then mp + 3 else mp - 9
  }

  /** The month formula finds the month that holds the day; every month but February has its usual length. */
  lemma MonthIsRight(doy: int)
    requires 0 <= doy <= 365
    ensures var mp := (5 * doy + 2) / 153;
            && 0 <= mp <= 11
            && MonthOffset(mp) <= doy < MonthOffset(mp + 1)
  {
  }

  lemma MonthOffsets(year: int, mp: int)
    requires 0 <= mp <= 11
    ensures var m := MonthOf(mp);
            && 1 <= m <= 12
            && (mp <= 9 ==> DaysBeforeMonth(year, m) == 31 + DaysInMonth(year, 2) + MonthOffset(mp))
            && (mp >= 10 ==> DaysBeforeMonth(year, m) == MonthOffset(mp) - 306)
            && (mp <= 10 ==> MonthOffset(mp + 1) - MonthOffset(mp) == DaysInMonth(year, m))
            && (mp == 11 ==> MonthOffset(mp) == 337)
  {
    FirstMonths(year);
  }

  lemma FirstMonths(year: int)
    ensures DaysBeforeMonth(year, 2) == 31
    ensures DaysBeforeMonth(year, 3) == 31 + DaysInMonth(year, 2)
    ensures forall m :: 3 <= m <= 12 ==> DaysBeforeMonth(year, m) == 31 + DaysInMonth(year, 2) + MonthOffset(m - 3)
  {
    assert DaysBeforeMonth(year, 4) == DaysBeforeMonth(year, 3) + 31;
    assert DaysBeforeMonth(year, 5) == DaysBeforeMonth(year, 4) + 30;
    assert DaysBeforeMonth(year, 6) == DaysBeforeMonth(year, 5) + 31;
    assert DaysBeforeMonth(year, 7) == DaysBeforeMonth(year, 6) + 30;
    assert DaysBeforeMonth(year, 8) == DaysBeforeMonth(year, 7) + 31;
    assert DaysBeforeMonth(year, 9) == DaysBeforeMonth(year, 8) + 31;
    assert DaysBeforeMonth(year, 10) == DaysBeforeMonth(year, 9) + 30;
    assert DaysBeforeMonth(year, 11) == DaysBeforeMonth(year, 10) + 31;
    assert DaysBeforeMonth(year, 12) == DaysBeforeMonth(year, 11) + 30;
  }

  // ---------------------------------------------------------- the whole formula

  lemma EraShift(era: nat, k: int)
    ensures MarchDays(400 * era + k) == 146_097 * era + MarchDays(k)
  {
    assert (400 * era + k) / 4 == 100 * era + k / 4;
    assert (400 * era + k) / 100 == 4 * era + k / 100;
    assert (400 * era + k) / 400 == era + k / 400;
  }

  lemma MarchDaysStep(k: int)
    ensures MarchDays(k) - MarchDays(k - 1) == DaysInYear(k)
  {
    LeapDayCount(k);
  }

  /** The March-based year and the day of it that the formula computes. */
  lemma EraDay(era: nat, doe: int) returns (y: int, doy: int)
    requires 0 <= doe < 146_097
    ensures 0 <= doy < DaysInYear(y + 1)
    ensures 146_097 * era + doe == MarchDays(y) + doy
    ensures FromEra(era, doe) == FromMarchYear(y, doy)
  {
    var yoe := YearOfEra(doe);
    y, doy := yoe + era * 400, doe - (365 * yoe + yoe / 4 - yoe / 100);
    YearOfEraIsRight(doe);
    EraShift(era, yoe);
    EraShift(era, yoe + 1);
    MarchDaysStep(400 * era + yoe + 1);
    WithinEra(yoe);
  }

  lemma WithinEra(yoe: int)
    requires 0 <= yoe <= 399
    ensures MarchDays(yoe) == 365 * yoe + yoe / 4 - yoe / 100
  {
  }

  lemma {:induction false} MarchDaysMonotone(a: int, b: int)
    requires a <= b
    ensures MarchDays(a) <= MarchDays(b)
    decreases b - a
  {
    if a < b {
      MarchDaysMonotone(a, b - 1);
      MarchDaysStep(b);
    }
  }

  lemma FromMarchIsRight(y: int, doy: int)
    requires 0 <= doy < DaysInYear(y + 1)
    requires 1969 <= y && (y == 1969 ==> 306 <= doy)
    ensures ValidDate(FromMarchYear(y, doy))
    ensures DayNumber(FromMarchYear(y, doy)) == MarchDays(y) + doy - 719_468
  {
    var mp := (5 * doy + 2) / 153;
    MonthIsRight(doy);
    var date := FromMarchYear(y, doy);
    assert date.month == MonthOf(mp) && date.day == doy - MonthOffset(mp) + 1;
    MonthOffsets(date.year, mp);
    DaysBeforeYearClosed(date.year);
    if mp <= 9 {
      assert date.year == y;
      MarchDaysStep(y);
    } else {
      assert date.year == y + 1;
    }
  }

  /**
    For every day number the computed date is a valid Gregorian date, and it is the date
    with exactly that day number.
   */
  lemma CivilFromDaysIsRight(days: nat)
    ensures ValidDate(CivilFromDays(days))
    ensures DayNumber(CivilFromDays(days)) == days
  {
    var z := days + 719_468;
    var y, doy := EraDay(z / 146_097, z % 146_097);
    MarchDaysStep(y + 1);
    if y < 1969 { MarchDaysMonotone(y + 1, 1969); }
    assert MarchDays(1969) == 719_162;
    FromMarchIsRight(y, doy);
  }

  // ------------------------------------------------------------- order

  /** Chronological order on dates. */
  predicate Earlier(a: Date, b: Date) {
    || a.year < b.year
    || (a.year == b.year && a.month < b.month)
    || (a.year == b.year && a.month == b.month && a.day < b.day)
  }

  /** The calendar successor of a date. */
  function Tomorrow(date: Date): Date
    requires ValidDate(date)
  {
    if date.day < DaysInMonth(date.year, date.month) then date.(day := date.day + 1)
    else if date.month < 12 then Date(date.year, date.month + 1, 1)
    else Date(date.year + 1, 1, 1)
  }

  lemma {:induction false} MonthsAdvance(year: int, a: int, b: int)
    requires 1 <= a < b <= 13
    ensures DaysBeforeMonth(year, a) + DaysInMonth(year, a) <= DaysBeforeMonth(year, b)
    decreases b
  {
    if a < b - 1 { MonthsAdvance(year, a, b - 1); }
  }

  lemma YearLength(year: int)
    ensures DaysBeforeMonth(year, 13) == DaysInYear(year)
  {
    FirstMonths(year);
    assert DaysBeforeMonth(year, 12) == 31 + DaysInMonth(year, 2) + 275;
  }

  lemma {:induction false} YearsAdvance(a: int, b: int)
    requires 1970 <= a < b
    ensures DaysBeforeYear(a) + DaysInYear(a) <= DaysBeforeYear(b)
    decreases b
  {
    if a < b - 1 { YearsAdvance(a, b - 1); }
  }

  lemma DayNumberInYear(date: Date)
    requires ValidDate(date)
    ensures DaysBeforeYear(date.year) <= DayNumber(date) < DaysBeforeYear(date.year) + DaysInYear(date.year)
  {
    MonthsAdvance(date.year, date.month, 13);
    YearLength(date.year);
    if date.month > 1 { MonthsAdvance(date.year, 1, date.month); }
  }

  /** Day numbers order dates chronologically, so no two dates share one. */
  lemma EarlierIsSmaller(a: Date, b: Date)
    requires ValidDate(a) && ValidDate(b)
    ensures Earlier(a, b) <==> DayNumber(a) < DayNumber(b)
    ensures a == b <==> DayNumber(a) == DayNumber(b)
  {
    if Earlier(a, b) { EarlierOneWay(a, b); }
    if Earlier(b, a) { EarlierOneWay(b, a); }
  }

  lemma EarlierOneWay(a: Date, b: Date)
    requires ValidDate(a) && ValidDate(b) && Earlier(a, b)
    ensures DayNumber(a) < DayNumber(b)
  {
    if a.year < b.year {
      DayNumberInYear(a);
      DayNumberInYear(b);
      YearsAdvance(a.year, b.year);
    } else if a.month < b.month {
      MonthsAdvance(a.year, a.month, b.month);
    }
  }

  lemma TomorrowIsNext(date: Date)
    requires ValidDate(date)
    ensures ValidDate(Tomorrow(date)) && DayNumber(Tomorrow(date)) == DayNumber(date) + 1
  {
    if date.day == DaysInMonth(date.year, date.month) && date.month == 12 {
      YearLength(date.year);
    }
  }

  /** Consecutive days map to calendar successors, across month ends and leap and century rules. */
  lemma NextDayIsTomorrow(days: nat)
    ensures ValidDate(CivilFromDays(days))
    ensures CivilFromDays(days + 1) == Tomorrow(CivilFromDays(days))
  {
    CivilFromDaysIsRight(days);
    CivilFromDaysIsRight(days + 1);
    TomorrowIsNext(CivilFromDays(days));
    EarlierIsSmaller(CivilFromDays(days + 1), Tomorrow(CivilFromDays(days)));
  }

  /** The dates of two days are in the order of the days. */
  lemma DatesKeepOrder(a: nat, b: nat)
    ensures a < b <==> Earlier(CivilFromDays(a), CivilFromDays(b))
  {
    CivilFromDaysIsRight(a);
    CivilFromDaysIsRight(b);
    EarlierIsSmaller(CivilFromDays(a), CivilFromDays(b));
  }

  /** The number of seconds a stamp stands for, counted by the calendar. */
  function UnixSeconds(stamp: Stamp): int
    requires ValidDate(stamp.date)
  {
    DayNumber(stamp.date) * 86_400 + stamp.hour * 3600 + stamp.minute * 60 + stamp.second
  }

  /** The stamp of a timestamp is a valid date and time of day, and stands for that timestamp. */
  lemma StampIsRight(unixSeconds: u64)
    ensures var stamp := ClfStamp(unixSeconds);
            && ValidDate(stamp.date)
            && 0 <= stamp.hour < 24 && 0 <= stamp.minute < 60 && 0 <= stamp.second < 60
            && UnixSeconds(stamp) == unixSeconds
            && 0 <= stamp.date.month - 1 < 12
  {
    CivilFromDaysIsRight(unixSeconds / 86_400);
    TimeOfDay(unixSeconds % 86_400);
  }

  lemma TimeOfDay(s: int)
    requires 0 <= s < 86_400
    ensures 0 <= s / 3600 < 24 && 0 <= s % 3600 / 60 < 60 && 0 <= s % 60 < 60
    ensures s == s / 3600 * 3600 + s % 3600 / 60 * 60 + s % 60
  {
    var r := s % 3600;
    assert s % 60 == (60 * (60 * (s / 3600)) + r) % 60 == r % 60;
  }
}
