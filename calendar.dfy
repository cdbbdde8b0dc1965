/** Integer facts about days of the week, kept apart from the calendar's
    definitions so that the solver sees only integers. */
module CalendarArith {

  lemma ModSevenShift(a: int, n: int)
    ensures (a + n) % 7 == (a % 7 + n) % 7
  {
    var q := a / 7;
    assert a + n == 7 * q + (a % 7 + n);
  }

  /** Going back `(w + 6) % 7` days from weekday `w` lands on a Monday. */
  lemma BackToMonday(w: int, back: int)
    requires 0 <= w < 7 && back == (if w == 0 then 6 else w - 1)
    ensures 0 <= back <= 6 && back == (w + 6) % 7 && (w - back) % 7 == 1
  {
  }

  lemma ModSevenSmall(x: int)
    requires 0 <= x < 14
    ensures x % 7 == if x < 7 then x else x - 7
  {
  }
}

/** Proleptic-Gregorian calendar arithmetic: the part of JavaScript's `Date`
    and of date-fns that the date helpers rely on, on (year, month, day)
    triples in local time. A `Date` that is `None` stands for JavaScript's
    "Invalid Date". */
module Calendar {
  import opened Wrappers
  import opened CalendarArith

  datatype Date = Date(year: int, month: int, day: int)

  predicate IsLeapYear(y: int) { y % 4 == 0 && (y % 100 != 0 || y % 400 == 0) }

  function DaysInMonth(y: int, m: int): (n: int)
    requires 1 <= m <= 12
    ensures 28 <= n <= 31
  {
    if m == 2 then (if IsLeapYear(y) then 29 else 28)
    else if m == 4 || m == 6 || m == 9 || m == 11 then 30
    else 31
  }

  function YearLength(y: int): int { if IsLeapYear(y) then 366 else 365 }

  predicate ValidDate(d: Date) {
    1 <= d.month <= 12 && 1 <= d.day <= DaysInMonth(d.year, d.month)
  }

  /** Days in the months of year `y` before month `m`. */
  function DaysBeforeMonth(y: int, m: int): int
    requires 1 <= m <= 12
  {
    var leap := if IsLeapYear(y) && m > 2 then 1 else 0;
    leap + (match m
      case 1 => 0 case 2 => 31 case 3 => 59 case 4 => 90
      case 5 => 120 case 6 => 151 case 7 => 181 case 8 => 212
      case 9 => 243 case 10 => 273 case 11 => 304 case _ => 334)
  }

  /** Days from 0001-01-01 to the first of January of year `y` (negative before),
      year by year. */
  function DaysBeforeYear(y: int): int
    decreases if y >= 1 then y - 1 else 1 - y
  {
    if y == 1 then 0
    else if y > 1 then DaysBeforeYear(y - 1) + YearLength(y - 1)
    else DaysBeforeYear(y + 1) - YearLength(y)
  }

  /** The day's position on the time line: 0001-01-01 is day 0. */
  function DayNumber(d: Date): int
    requires ValidDate(d)
  {
    DaysBeforeYear(d.year) + DaysBeforeMonth(d.year, d.month) + d.day - 1
  }

  /** `Date.prototype.getDay`: 0 is Sunday, 1 Monday, ..., 6 Saturday
      (0001-01-01 was a Monday). */
  function Weekday(d: Date): (w: int)
    requires ValidDate(d)
    ensures 0 <= w < 7
  {
    (DayNumber(d) + 1) % 7
  }

  function NextDay(d: Date): (r: Date)
    requires ValidDate(d)
    ensures ValidDate(r)
  {
    if d.day < DaysInMonth(d.year, d.month) then Date(d.year, d.month, d.day + 1)
    else if d.month < 12 then Date(d.year, d.month + 1, 1)
    else Date(d.year + 1, 1, 1)
  }

  function PrevDay(d: Date): (r: Date)
    requires ValidDate(d)
    ensures ValidDate(r)
  {
    if d.day > 1 then Date(d.year, d.month, d.day - 1)
    else if d.month > 1 then Date(d.year, d.month - 1, DaysInMonth(d.year, d.month - 1))
    else Date(d.year - 1, 12, 31)
  }

  /** date-fns `addDays` (and `subDays(d, n)` as `AddDays(d, -n)`): calendar
      arithmetic on local dates, one day at a time. */
  function AddDays(d: Date, n: int): (r: Date)
    requires ValidDate(d)
    ensures ValidDate(r)
    decreases if n < 0 then -n else n
  {
    if n == 0 then d
    else if n > 0 then AddDays(NextDay(d), n - 1)
    else AddDays(PrevDay(d), n + 1)
  }

  function SubDays(d: Date, n: int): (r: Date)
    requires ValidDate(d)
    ensures ValidDate(r)
  {
    AddDays(d, -n)
  }

  /** Chronological order of calendar triples. */
  predicate Before(a: Date, b: Date) {
    a.year < b.year || (a.year == b.year && (a.month < b.month || (a.month == b.month && a.day < b.day)))
  }

  lemma YearStep(y: int)
    ensures DaysBeforeYear(y + 1) == DaysBeforeYear(y) + YearLength(y)
  {
  }

  lemma NextDayNumber(d: Date)
    requires ValidDate(d)
    ensures DayNumber(NextDay(d)) == DayNumber(d) + 1
  {
    if d.day == DaysInMonth(d.year, d.month) && d.month == 12 {
      YearStep(d.year);
    }
  }

  lemma PrevNextInverse(d: Date)
    requires ValidDate(d)
    ensures PrevDay(NextDay(d)) == d
    ensures NextDay(PrevDay(d)) == d
  {
  }

  lemma PrevDayNumber(d: Date)
    requires ValidDate(d)
    ensures DayNumber(PrevDay(d)) == DayNumber(d) - 1
  {
    PrevNextInverse(d);
    NextDayNumber(PrevDay(d));
  }

  lemma {:induction false} AddDaysNext(d: Date, n: int)
    requires ValidDate(d)
    ensures AddDays(d, n + 1) == NextDay(AddDays(d, n))
    decreases if n < 0 then -n else n
  {
    if n > 0 {
      AddDaysNext(NextDay(d), n - 1);
    } else if n == -1 {
      PrevNextInverse(d);
    } else if n < -1 {
      AddDaysNext(PrevDay(d), n + 1);
    }
  }

  lemma AddDaysPrev(d: Date, n: int)
    requires ValidDate(d)
    ensures AddDays(d, n - 1) == PrevDay(AddDays(d, n))
  {
    AddDaysNext(d, n - 1);
    PrevNextInverse(AddDays(d, n - 1));
  }

  /** Moving by `n` days moves the day number by exactly `n`. */
  lemma {:induction false} AddDaysNumber(d: Date, n: int)
    requires ValidDate(d)
    ensures DayNumber(AddDays(d, n)) == DayNumber(d) + n
    decreases if n < 0 then -n else n
  {
    if n > 0 {
      NextDayNumber(d);
      AddDaysNumber(NextDay(d), n - 1);
    } else if n < 0 {
      PrevDayNumber(d);
      AddDaysNumber(PrevDay(d), n + 1);
    }
  }

  /** Two moves compose into one. */
  lemma {:induction false} AddDaysCompose(d: Date, n: int, m: int)
    requires ValidDate(d)
    ensures AddDays(AddDays(d, n), m) == AddDays(d, n + m)
    decreases if m < 0 then -m else m
  {
    var x := AddDays(d, n);
    if m > 0 {
      AddDaysNext(x, m - 1);
      AddDaysCompose(d, n, m - 1);
      AddDaysNext(d, n + m - 1);
    } else if m < 0 {
      AddDaysPrev(x, m + 1);
      AddDaysCompose(d, n, m + 1);
      AddDaysPrev(d, n + m + 1);
    }
  }

  /** `subDays(addDays(d, n), n)` is `d`. */
  lemma AddSubRoundTrip(d: Date, n: int)
    requires ValidDate(d)
    ensures SubDays(AddDays(d, n), n) == d
    ensures AddDays(SubDays(d, n), n) == d
  {
    AddDaysCompose(d, n, -n);
    AddDaysCompose(d, -n, n);
  }

  lemma WeekdayAfter(d: Date, n: int)
    requires ValidDate(d)
    ensures Weekday(AddDays(d, n)) == (Weekday(d) + n) % 7
  {
    AddDaysNumber(d, n);
    ModSevenShift(DayNumber(d) + 1, n);
  }

  /** Within a month, the first of the month moved by `k` days is day `k + 1`. */
  lemma {:induction false} AddDaysWithinMonth(y: int, m: int, k: nat)
    requires 1 <= m <= 12 && k < DaysInMonth(y, m)
    ensures AddDays(Date(y, m, 1), k) == Date(y, m, k + 1)
  {
    if k > 0 {
      AddDaysWithinMonth(y, m, k - 1);
      AddDaysNext(Date(y, m, 1), k - 1);
    }
  }

  lemma DaysBeforeMonthBounds(d: Date)
    requires ValidDate(d)
    ensures 0 <= DaysBeforeMonth(d.year, d.month) + d.day - 1 < YearLength(d.year)
  {
  }

  lemma DaysBeforeMonthStrict(y: int, m: int, m': int, day: int)
    requires 1 <= m < m' <= 12 && 1 <= day <= DaysInMonth(y, m)
    ensures DaysBeforeMonth(y, m) + day <= DaysBeforeMonth(y, m')
  {
  }

  lemma {:induction false} DaysBeforeYearMonotone(y: int, y': int)
    requires y <= y'
    ensures DaysBeforeYear(y) + (y' - y) * 365 <= DaysBeforeYear(y')
    decreases y' - y
  {
    if y < y' {
      DaysBeforeYearMonotone(y, y' - 1);
      YearStep(y' - 1);
    }
  }

  /** The chronological order of valid dates is the order of their day numbers. */
  lemma DayNumberOrder(a: Date, b: Date)
    requires ValidDate(a) && ValidDate(b)
    ensures Before(a, b) <==> DayNumber(a) < DayNumber(b)
    ensures a == b <==> DayNumber(a) == DayNumber(b)
  {
    DaysBeforeMonthBounds(a);
    DaysBeforeMonthBounds(b);
    if a.year < b.year {
      DaysBeforeYearMonotone(a.year + 1, b.year);
      YearStep(a.year);
    } else if b.year < a.year {
      DaysBeforeYearMonotone(b.year + 1, a.year);
      YearStep(b.year);
    } else if a.month < b.month {
      DaysBeforeMonthStrict(a.year, a.month, b.month, a.day);
    } else if b.month < a.month {
      DaysBeforeMonthStrict(b.year, b.month, a.month, b.day);
    }
  }
}
