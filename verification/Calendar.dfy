/** The proleptic Gregorian calendar, by the day and by the minute. */
module Calendar {

  datatype Date = Date(year: int, month: int, day: int)

  /** A minute: a date and the minute of that day. */
  datatype Minute = Minute(date: Date, clock: nat)

  const MAX_YEAR := 9999
  const MINUTES_A_DAY := 1440

  predicate IsLeap(year: int) {
    year % 4 == 0 && (year % 100 != 0 || year % 400 == 0)
  }

  function DaysIn(year: int, month: int): (n: nat)
    ensures 28 <= n <= 31
  {
    if month == 2 then (if IsLeap(year) then 29 else 28)
    else if month == 4 || month == 6 || month == 9 || month == 11 then 30
    else 31
  }

  predicate ValidDate(d: Date) {
    1 <= d.year && 1 <= d.month <= 12 && 1 <= d.day <= DaysIn(d.year, d.month)
  }

  predicate ValidMinute(m: Minute) {
    ValidDate(m.date) && m.clock < MINUTES_A_DAY
  }

  /** The first day of the month after `d`. */
  function NextMonth(d: Date): Date {
    if d.month == 12 then Date(d.year + 1, 1, 1) else Date(d.year, d.month + 1, 1)
  }

  function NextDay(d: Date): (r: Date)
    requires ValidDate(d)
    ensures ValidDate(r)
  {
    if d.day < DaysIn(d.year, d.month) then Date(d.year, d.month, d.day + 1) else NextMonth(d)
  }

  function DaysLater(d: Date, n: nat): (r: Date)
    requires ValidDate(d)
    ensures ValidDate(r)
  {
    if n == 0 then d else NextDay(DaysLater(d, n - 1))
  }

  function NextMinute(m: Minute): (r: Minute)
    requires ValidMinute(m)
    ensures ValidMinute(r)
  {
    if m.clock + 1 < MINUTES_A_DAY then Minute(m.date, m.clock + 1) else Minute(NextDay(m.date), 0)
  }

  function MinutesLater(m: Minute, n: nat): (r: Minute)
    requires ValidMinute(m)
    ensures ValidMinute(r)
  {
    if n == 0 then m else NextMinute(MinutesLater(m, n - 1))
  }

  // ---------------------------------------------------------------- arithmetic of the successor

  lemma {:induction false} DaysCompose(d: Date, a: nat, b: nat)
    requires ValidDate(d)
    ensures DaysLater(d, a + b) == DaysLater(DaysLater(d, a), b)
    decreases b
  {
    if b > 0 {
      DaysCompose(d, a, b - 1);
    }
  }

  /** Counting minutes is counting days, and the rest on the clock. */
  lemma {:induction false} MinutesAsDays(m: Minute, n: nat)
    requires ValidMinute(m)
    ensures MinutesLater(m, n) == Minute(DaysLater(m.date, (m.clock + n) / MINUTES_A_DAY), (m.clock + n) % MINUTES_A_DAY)
    decreases n
  {
    if n > 0 {
      MinutesAsDays(m, n - 1);
    }
  }

  lemma {:induction false} DaysInMonth(d: Date, n: nat)
    requires ValidDate(d) && d.day + n <= DaysIn(d.year, d.month)
    ensures DaysLater(d, n) == Date(d.year, d.month, d.day + n)
    decreases n
  {
    if n > 0 {
      DaysInMonth(d, n - 1);
    }
  }

  lemma DaysToNextMonth(d: Date, left: nat)
    requires ValidDate(d) && d.day + left == DaysIn(d.year, d.month)
    ensures DaysLater(d, left + 1) == NextMonth(d)
  {
    DaysInMonth(d, left);
    OneDayLater(d, left);
    LastOfMonth(Date(d.year, d.month, d.day + left));
  }

  lemma LastOfMonth(d: Date)
    requires ValidDate(d) && d.day == DaysIn(d.year, d.month)
    ensures NextDay(d) == NextMonth(d)
  {
  }

  lemma OneDayLater(d: Date, n: nat)
    requires ValidDate(d)
    ensures DaysLater(d, n + 1) == NextDay(DaysLater(d, n))
  {
  }

  /** Into the next month, and on to its day `k`. */
  lemma DaysIntoNextMonth(d: Date, k: int) returns (n: nat)
    requires ValidDate(d) && 1 <= k <= DaysIn(NextMonth(d).year, NextMonth(d).month)
    ensures n == DaysIn(d.year, d.month) - d.day + k
    ensures DaysLater(d, n) == Date(NextMonth(d).year, NextMonth(d).month, k)
  {
    var first := NextMonth(d);
    var toFirst: nat := DaysIn(d.year, d.month) - d.day + 1;
    DaysToNextMonth(d, toFirst - 1);
    DaysCompose(d, toFirst, k - 1);
    DaysInMonth(first, k - 1);
    n := toFirst + (k - 1);
  }

  // ---------------------------------------------------------------- weekdays

  /** Days since the first of January of year 1, counting from 1. */
  function Ordinal(d: Date): int {
    DaysBeforeYear(d.year) + DaysBeforeMonth(d.year, d.month) + d.day
  }

  function DaysBeforeYear(year: int): int {
    var y := year - 1;
    y * 365 + y / 4 - y / 100 + y / 400
  }

  function DaysBeforeMonth(year: int, month: int): nat
    decreases month
  {
    if month <= 1 then 0 else DaysBeforeMonth(year, month - 1) + DaysIn(year, month - 1)
  }

  function WeekdayOf(ordinal: int): (w: int)
    ensures 0 <= w < 7
  {
    (ordinal + 6) % 7
  }

  /** Monday is 0. */
  function Weekday(d: Date): (w: int)
    ensures 0 <= w < 7
  {
    WeekdayOf(Ordinal(d))
  }

  lemma YearLength(year: int)
    ensures DaysBeforeMonth(year, 12) + 31 == if IsLeap(year) then 366 else 365
    ensures DaysBeforeYear(year + 1) == DaysBeforeYear(year) + if IsLeap(year) then 366 else 365
  {
    MonthsOfYear(year);
    YearQuotients(year);
  }

  lemma MonthsOfYear(year: int)
    ensures DaysBeforeMonth(year, 12) + 31 == if IsLeap(year) then 366 else 365
  {
    assert DaysBeforeMonth(year, 3) == 31 + DaysIn(year, 2);
    assert DaysBeforeMonth(year, 5) == DaysBeforeMonth(year, 3) + 61;
    assert DaysBeforeMonth(year, 7) == DaysBeforeMonth(year, 5) + 61;
    assert DaysBeforeMonth(year, 9) == DaysBeforeMonth(year, 7) + 62;
    assert DaysBeforeMonth(year, 11) == DaysBeforeMonth(year, 9) + 61;
  }

  lemma YearQuotients(year: int)
    ensures year / 4 == (year - 1) / 4 + (if year % 4 == 0 then 1 else 0)
    ensures year / 100 == (year - 1) / 100 + (if year % 100 == 0 then 1 else 0)
    ensures year / 400 == (year - 1) / 400 + (if year % 400 == 0 then 1 else 0)
    ensures year % 400 == 0 ==> year % 100 == 0
    ensures year % 100 == 0 ==> year % 4 == 0
  {
  }

  /** The ordinal numbers the days one by one. */
  lemma OrdinalAdvances(d: Date)
    requires ValidDate(d)
    ensures Ordinal(NextDay(d)) == Ordinal(d) + 1
  {
    if d.day == DaysIn(d.year, d.month) && d.month == 12 {
      YearLength(d.year);
    }
  }

  lemma {:induction false} OrdinalLater(d: Date, n: nat)
    requires ValidDate(d)
    ensures Ordinal(DaysLater(d, n)) == Ordinal(d) + n
    decreases n
  {
    if n > 0 {
      OrdinalLater(d, n - 1);
      OrdinalAdvances(DaysLater(d, n - 1));
    }
  }

  lemma WheelTurns(a: int, n: nat, b: int)
    requires b == a + n
    ensures WeekdayOf(b) == (WeekdayOf(a) + n) % 7
  {
  }

  lemma WeekdayLater(d: Date, n: nat)
    requires ValidDate(d)
    ensures Weekday(DaysLater(d, n)) == (Weekday(d) + n) % 7
  {
    OrdinalLater(d, n);
    WheelTurns(Ordinal(d), n, Ordinal(DaysLater(d, n)));
  }

  /** The calendar repeats after 400 years, which are whole weeks. */
  lemma FourCenturies(year: int)
    ensures DaysBeforeYear(year + 400) == DaysBeforeYear(year) + 146097 && 146097 % 7 == 0
    ensures IsLeap(year + 400) <==> IsLeap(year)
  {
    var y := year - 1;
    assert (y + 400) / 4 == y / 4 + 100 && (y + 400) / 100 == y / 100 + 4 && (y + 400) / 400 == y / 400 + 1;
  }

  /** The lengths of the months, and which years are leap years. */
  lemma MonthLengths(year: int, month: int)
    ensures month in {1, 3, 5, 7, 8, 10, 12} ==> DaysIn(year, month) == 31
    ensures month in {4, 6, 9, 11} ==> DaysIn(year, month) == 30
    ensures year % 400 == 0 ==> DaysIn(year, 2) == 29
    ensures year % 400 != 0 && year % 100 == 0 ==> DaysIn(year, 2) == 28
    ensures year % 100 != 0 ==> DaysIn(year, 2) == if year % 4 == 0 then 29 else 28
  {
    YearQuotients(year);
  }

  /** The first day of the calendar is a Monday, and so the first of January 1970 a Thursday. */
  lemma KnownWeekdays()
    ensures Weekday(Date(1, 1, 1)) == 0 && Weekday(Date(1970, 1, 1)) == 3 && Weekday(Date(2000, 2, 29)) == 1
  {
    assert DaysBeforeMonth(2000, 2) == 31;
  }

  // ---------------------------------------------------------------- order

  function MinuteNumber(m: Minute): int {
    Ordinal(m.date) * MINUTES_A_DAY + m.clock
  }

  lemma NumberAdvances(m: Minute)
    requires ValidMinute(m)
    ensures MinuteNumber(NextMinute(m)) == MinuteNumber(m) + 1
  {
    OrdinalAdvances(m.date);
  }

  lemma {:induction false} MinutesAdvance(m: Minute, n: nat)
    requires ValidMinute(m)
    ensures MinuteNumber(MinutesLater(m, n)) == MinuteNumber(m) + n
    decreases n
  {
    if n > 0 {
      MinutesAdvance(m, n - 1);
      NumberAdvances(MinutesLater(m, n - 1));
    }
  }

  lemma {:induction false} MonthStarts(year: int, a: int, b: int)
    requires 1 <= a < b
    ensures DaysBeforeMonth(year, a) + DaysIn(year, a) <= DaysBeforeMonth(year, b)
    decreases b
  {
    if a < b - 1 {
      MonthStarts(year, a, b - 1);
    }
  }

  lemma {:induction false} YearStarts(a: int, b: int)
    requires a < b
    ensures DaysBeforeYear(a) + (if IsLeap(a) then 366 else 365) <= DaysBeforeYear(b)
    decreases b - a
  {
    YearLength(b - 1);
    if a < b - 1 {
      YearStarts(a, b - 1);
    }
  }

  /** Earlier on the calendar. */
  predicate Earlier(d: Date, e: Date) {
    d.year < e.year || (d.year == e.year && (d.month < e.month || (d.month == e.month && d.day < e.day)))
  }

  lemma EndOfYear(d: Date)
    requires ValidDate(d)
    ensures DaysBeforeMonth(d.year, d.month) + d.day <= if IsLeap(d.year) then 366 else 365
  {
    YearLength(d.year);
    if d.month < 12 {
      MonthStarts(d.year, d.month, 12);
    }
  }

  lemma EarlierIsLess(d: Date, e: Date)
    requires ValidDate(d) && ValidDate(e) && Earlier(d, e)
    ensures Ordinal(d) < Ordinal(e)
  {
    if d.year < e.year {
      EndOfYear(d);
      YearStarts(d.year, e.year);
    } else if d.month < e.month {
      MonthStarts(d.year, d.month, e.month);
    }
  }

  /** Different minutes have different numbers. */
  lemma NumberDetermines(m: Minute, n: Minute)
    requires ValidMinute(m) && ValidMinute(n) && MinuteNumber(m) == MinuteNumber(n)
    ensures m == n
  {
    if Earlier(m.date, n.date) {
      EarlierIsLess(m.date, n.date);
    } else if Earlier(n.date, m.date) {
      EarlierIsLess(n.date, m.date);
    }
  }

  /** Every later minute of the calendar is reached by counting. */
  lemma EveryMinuteComes(m: Minute, later: Minute)
    requires ValidMinute(m) && ValidMinute(later) && MinuteNumber(m) <= MinuteNumber(later)
    ensures MinutesLater(m, MinuteNumber(later) - MinuteNumber(m)) == later
  {
    var n: nat := MinuteNumber(later) - MinuteNumber(m);
    MinutesAdvance(m, n);
    NumberDetermines(MinutesLater(m, n), later);
  }

  // ---------------------------------------------------------------- how soon a day comes round

  /** Of two months in a row at least one has 31 days. */
  lemma LongMonthSoon(d: Date)
    requires ValidDate(d)
    ensures DaysIn(d.year, d.month) == 31 || DaysIn(NextMonth(d).year, NextMonth(d).month) == 31
  {
  }

  /** Day `k` of the month comes round within 60 days, or after 61 if today is one. */
  lemma DayComesRound(d: Date, k: int) returns (n: nat)
    requires ValidDate(d) && 1 <= k <= 31
    ensures 1 <= n <= 61 && DaysLater(d, n).day == k
    ensures n == 61 ==> d.day == k
  {
    var first := NextMonth(d);
    if d.day < k <= DaysIn(d.year, d.month) {
      n := k - d.day;
      DaysInMonth(d, n);
    } else if k <= DaysIn(first.year, first.month) {
      n := DaysIntoNextMonth(d, k);
    } else {
      n := DayOverNextMonth(d, k);
    }
  }

  lemma DayOverNextMonth(d: Date, k: int) returns (n: nat)
    requires ValidDate(d) && DaysIn(NextMonth(d).year, NextMonth(d).month) < k <= 31
    requires k <= d.day || DaysIn(d.year, d.month) < k
    ensures 1 <= n <= 61 && DaysLater(d, n).day == k
    ensures n == 61 ==> d.day == k
  {
    var first := NextMonth(d);
    LongMonthSoon(d);
    LongMonthSoon(first);
    var toFirst := DaysIntoNextMonth(d, 1);
    var rest := DaysIntoNextMonth(first, k);
    DaysCompose(d, toFirst, rest);
    n := toFirst + rest;
  }

  /** Each weekday comes round within seven days, and a day's own after exactly seven. */
  lemma WeekdayComesRound(d: Date, w: int) returns (n: nat)
    requires ValidDate(d) && 0 <= w < 7
    ensures 1 <= n <= 7 && Weekday(DaysLater(d, n)) == w
    ensures n == 7 ==> Weekday(d) == w
  {
    n := StepsOnWheel(Weekday(d), w);
    WeekdayLater(d, n);
  }

  lemma StepsOnWheel(from: int, w: int) returns (n: nat)
    requires 0 <= from < 7 && 0 <= w < 7
    ensures 1 <= n <= 7 && (from + n) % 7 == w
    ensures n == 7 ==> from == w
  {
    n := if w > from then w - from else 7 + w - from;
  }
}
