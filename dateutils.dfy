/** The calendar-date helpers of the booking client, on strings in the
    calendar-date extended format `YYYY-MM-DD` of ISO 8601 (section 4.1.2.2 of
    ISO 8601:2004). "Today" is a parameter rather than a clock reading. */
module DateUtils {
  import opened Wrappers
  import opened Text
  import opened Calendar
  import opened CalendarArith

  /** A JavaScript `Date` in local time: `None` is "Invalid Date". */
  type JsDate = o: Option<Date> | o.None? || ValidDate(o.value) witness None

  /** What `${n}` and `String(n)` give for an Invalid Date's fields. */
  const NotANumber := "NaN"

  /** `String(n).padStart(2, '0')`. */
  function Pad2(n: nat): (s: string)
    ensures |s| >= 2 && AllDigits(s)
  {
    var t := NatToString(n);
    if |t| < 2 then "0" + t else t
  }

  /** `formatDateString`: `${year}-${MM}-${DD}` from the local fields; "NaN"
      in every field of an Invalid Date. */
  function FormatDateString(date: JsDate): (s: string)
    ensures date.None? ==> s == "NaN-NaN-NaN"
  {
    match date
    case None => NotANumber + "-" + NotANumber + "-" + NotANumber
    case Some(d) => IntToString(d.year) + "-" + Pad2(d.month) + "-" + Pad2(d.day)
  }

  /** For any year, the text is the year as written, then the month and the
      day zero-padded to two digits, joined by hyphens. */
  lemma FormatDateShape(d: Date)
    requires ValidDate(d)
    ensures var s := FormatDateString(Some(d)); var n := |s|;
      && n >= 7 && s[..n - 6] == IntToString(d.year) && s[n - 6] == '-' && s[n - 3] == '-'
      && |s[n - 5..n - 3]| == 2 && AllDigits(s[n - 5..n - 3]) && DigitsValue(s[n - 5..n - 3]) == d.month
      && |s[n - 2..]| == 2 && AllDigits(s[n - 2..]) && DigitsValue(s[n - 2..]) == d.day
  {
    var y, m, dd := IntToString(d.year), Pad2(d.month), Pad2(d.day);
    Pad2Shape(d.month);
    Pad2Shape(d.day);
    var s := y + "-" + m + "-" + dd;
    assert s[..|s| - 6] == y && s[|s| - 5..|s| - 3] == m && s[|s| - 2..] == dd;
  }

  /** The shape of the extended calendar-date format: four digits, a hyphen,
      two digits, a hyphen, two digits. */
  predicate IsoShape(s: string) {
    |s| == 10 && s[4] == '-' && s[7] == '-'
    && AllDigits(s[..4]) && AllDigits(s[5..7]) && AllDigits(s[8..])
  }

  function IsoFields(s: string): Date
    requires IsoShape(s)
  {
    Date(DigitsValue(s[..4]), DigitsValue(s[5..7]), DigitsValue(s[8..]))
  }

  /** A well-formed calendar date: the shape, and a month and day that exist. */
  predicate WellFormed(s: string) {
    IsoShape(s) && ValidDate(IsoFields(s))
  }

  /** date-fns `parseISO` on the calendar-date form: the local date it names,
      Invalid Date when the text is not a well-formed date. */
  function ParseIso(s: string): (r: JsDate)
    ensures r.Some? <==> WellFormed(s)
    ensures r.Some? ==> r.value == IsoFields(s)
  {
    if WellFormed(s) then Some(IsoFields(s)) else None
  }

  /** `Number(text)` on the field texts: a string of decimal digits (the empty
      string is 0); anything else is NaN (`None`). */
  function JsNumber(t: string): (r: Option<nat>)
    ensures r.Some? <==> AllDigits(t)
    ensures t == "" ==> r == Some(0)
    ensures AllDigits(t) && |t| >= 1 && (|t| == 1 || t[0] != '0') ==> r.Some? && NatToString(r.value) == t
  {
    if AllDigits(t) then
      if |t| >= 1 && (|t| == 1 || t[0] != '0') then
        DigitsRoundTrip(t);
        Some(DigitsValue(t))
      else Some(DigitsValue(t))
    else None
  }

  /** `new Date(y, monthIndex, day)`: years 0..99 are taken as 1900..1999, the
      month index is carried into the year, and the day counts from the first
      of that month (so day 0 is the last day of the previous month). */
  function MakeLocalDate(y: int, monthIndex: int, day: int): (r: Date)
    ensures ValidDate(r)
  {
    var fullYear := if 0 <= y <= 99 then 1900 + y else y;
    AddDays(Date(fullYear + monthIndex / 12, monthIndex % 12 + 1, 1), day - 1)
  }

  /** `parseDateString`: split on '-', convert the first three fields with
      `Number`, and build the local date. */
  function ParseDateString(s: string): (r: JsDate)
    ensures var parts := Split(s, '-');
      r.Some? <==> |parts| >= 3 && AllDigits(parts[0]) && AllDigits(parts[1]) && AllDigits(parts[2])
  {
    var parts := Split(s, '-');
    if |parts| < 3 then None
    else match (JsNumber(parts[0]), JsNumber(parts[1]), JsNumber(parts[2]))
      case (Some(y), Some(m), Some(d)) => Some(MakeLocalDate(y, m as int - 1, d))
      case _ => None
  }

  function AddDaysJs(date: JsDate, n: int): (r: JsDate)
    ensures r.Some? <==> date.Some?
  {
    match date
    case None => None
    case Some(d) => Some(AddDays(d, n))
  }

  function SubDaysJs(date: JsDate, n: int): (r: JsDate)
    ensures r.Some? <==> date.Some?
  {
    match date
    case None => None
    case Some(d) => Some(SubDays(d, n))
  }

  /** date-fns `startOfWeek` with the given first day of the week. */
  function StartOfWeek(d: Date, weekStartsOn: int): (r: Date)
    requires ValidDate(d) && 0 <= weekStartsOn < 7
    ensures ValidDate(r)
  {
    var day := Weekday(d);
    var diff := (if day < weekStartsOn then 7 else 0) + day - weekStartsOn;
    AddDays(d, -diff)
  }

  /** The Monday of the week of `d`; a Sunday belongs to the week that began
      six days earlier. */
  function WeekStartOf(d: Date): (r: Date)
    requires ValidDate(d)
    ensures ValidDate(r)
  {
    if Weekday(d) == 0 then SubDays(d, 6) else StartOfWeek(d, 1)
  }

  /** The week start is a Monday, on or before `d` and at most six days
      earlier; for a Sunday it is exactly six days earlier. */
  lemma WeekStartIsMonday(d: Date)
    requires ValidDate(d)
    ensures Weekday(WeekStartOf(d)) == 1
    ensures DayNumber(d) - 6 <= DayNumber(WeekStartOf(d)) <= DayNumber(d)
    ensures DayNumber(d) - DayNumber(WeekStartOf(d)) == (Weekday(d) + 6) % 7
    ensures Weekday(d) == 0 ==> DayNumber(WeekStartOf(d)) == DayNumber(d) - 6
  {
    var w := Weekday(d);
    var back := if w == 0 then 6 else w - 1;
    assert WeekStartOf(d) == AddDays(d, -back);
    BackToMonday(w, back);
    WeekdayAfter(d, -back);
    AddDaysNumber(d, -back);
  }

  /** `getWeekStart`. */
  function GetWeekStart(dateString: string): (r: JsDate)
    ensures r.Some? <==> WellFormed(dateString)
    ensures r.Some? ==> r.value == WeekStartOf(IsoFields(dateString))
  {
    match ParseIso(dateString)
    case None => None
    case Some(d) => Some(WeekStartOf(d))
  }

  /** `getWeekStartString`. */
  function GetWeekStartString(dateString: string): (s: string)
    ensures !WellFormed(dateString) ==> s == "NaN-NaN-NaN"
    ensures WellFormed(dateString) && 1000 <= WeekStartOf(IsoFields(dateString)).year <= 9999 ==>
      && WellFormed(s) && IsoFields(s) == WeekStartOf(IsoFields(dateString))
      && Weekday(IsoFields(s)) == 1
  {
    if WellFormed(dateString) && 1000 <= WeekStartOf(IsoFields(dateString)).year <= 9999 then
      WeekStartIsMonday(IsoFields(dateString));
      FormatIsWellFormed(WeekStartOf(IsoFields(dateString)));
      FormatDateString(GetWeekStart(dateString))
    else FormatDateString(GetWeekStart(dateString))
  }

  /** `addDaysToString`: the date `days` days later, written in the same
      format. */
  function AddDaysToString(dateString: string, days: int): (s: string)
    ensures !WellFormed(dateString) ==> s == "NaN-NaN-NaN"
    ensures WellFormed(dateString) && 1000 <= AddDays(IsoFields(dateString), days).year <= 9999 ==>
      && WellFormed(s) && IsoFields(s) == AddDays(IsoFields(dateString), days)
      && DayNumber(IsoFields(s)) == DayNumber(IsoFields(dateString)) + days
  {
    if WellFormed(dateString) && 1000 <= AddDays(IsoFields(dateString), days).year <= 9999 then
      var e := AddDays(IsoFields(dateString), days);
      assert AddDaysJs(ParseIso(dateString), days) == Some(e);
      FormatIsWellFormed(e);
      AddDaysNumber(IsoFields(dateString), days);
      FormatDateString(Some(e))
    else FormatDateString(AddDaysJs(ParseIso(dateString), days))
  }

  /** `subDaysToString`: the date `days` days earlier, written in the same
      format. */
  function SubDaysToString(dateString: string, days: int): (s: string)
    ensures !WellFormed(dateString) ==> s == "NaN-NaN-NaN"
    ensures WellFormed(dateString) && 1000 <= SubDays(IsoFields(dateString), days).year <= 9999 ==>
      && WellFormed(s) && IsoFields(s) == SubDays(IsoFields(dateString), days)
      && DayNumber(IsoFields(s)) == DayNumber(IsoFields(dateString)) - days
  {
    if WellFormed(dateString) && 1000 <= SubDays(IsoFields(dateString), days).year <= 9999 then
      var e := SubDays(IsoFields(dateString), days);
      assert e == AddDays(IsoFields(dateString), -days);
      assert SubDaysJs(ParseIso(dateString), days) == Some(e);
      FormatIsWellFormed(e);
      AddDaysNumber(IsoFields(dateString), -days);
      FormatDateString(Some(e))
    else FormatDateString(SubDaysJs(ParseIso(dateString), days))
  }

  /** `compareDateStrings`: `localeCompare`, taken as code-point order. */
  function CompareDateStrings(date1: string, date2: string): (r: int)
    ensures r == 0 <==> date1 == date2
    ensures r == -Compare(date2, date1)
  {
    CompareZeroIffEqual(date1, date2);
    CompareAntisymmetric(date1, date2);
    Compare(date1, date2)
  }

  /** A well-formed date string splits on '-' into its three fields. */
  lemma SplitIso(s: string)
    requires IsoShape(s)
    ensures Split(s, '-') == [s[..4], s[5..7], s[8..]]
  {
    var rest, last := s[5..], s[8..];
    NoSeparatorInDigits(s[..4], '-');
    NoSeparatorInDigits(s[5..7], '-');
    NoSeparatorInDigits(last, '-');
    IndexOfIs(s, '-', 4);
    assert rest[..2] == s[5..7] && rest[3..] == last;
    IndexOfIs(rest, '-', 2);
    assert Split(rest, '-') == [rest[..2]] + Split(last, '-');
  }

  /** Two zero-padded digits are the rendering of their value. */
  lemma Pad2RoundTrip(t: string)
    requires |t| == 2 && AllDigits(t)
    ensures Pad2(DigitsValue(t)) == t
  {
    DigitsValue2(t);
    var v := DigitsValue(t);
    if v >= 10 {
      assert v / 10 == DigitValue(t[0]) && v % 10 == DigitValue(t[1]);
      assert NatToString(v) == [DigitChar(v / 10)] + [DigitChar(v % 10)];
    }
  }

  /** `padStart(2, '0')` of a number below 100 is two digits holding it. */
  lemma Pad2Shape(n: nat)
    requires n < 100
    ensures |Pad2(n)| == 2 && AllDigits(Pad2(n)) && DigitsValue(Pad2(n)) == n
  {
    NatToStringValue(n);
    if n >= 10 {
      assert Pow10(1) == 10 && Pow10(2) == 100;
      NatToStringLength(n, 2);
    } else {
      DigitsValue2(Pad2(n));
    }
  }

  lemma YearFieldShape(y: int)
    requires 1000 <= y <= 9999
    ensures |IntToString(y)| == 4 && AllDigits(IntToString(y)) && DigitsValue(IntToString(y)) == y
  {
    NatToStringValue(y);
    assert Pow10(3) == 1000 && Pow10(4) == 10000 by {
      assert Pow10(1) == 10 && Pow10(2) == 100;
    }
    NatToStringLength(y, 4);
  }

  /** `formatDateString` of a date with a four-digit year is a well-formed
      `YYYY-MM-DD` string naming that date. */
  lemma FormatIsWellFormed(d: Date)
    requires ValidDate(d) && 1000 <= d.year <= 9999
    ensures WellFormed(FormatDateString(Some(d)))
    ensures IsoFields(FormatDateString(Some(d))) == d
    ensures FormatDateString(Some(d))[0] != '0'
  {
    var y, m, dd := IntToString(d.year), Pad2(d.month), Pad2(d.day);
    YearFieldShape(d.year);
    Pad2Shape(d.month);
    Pad2Shape(d.day);
    var s := FormatDateString(Some(d));
    assert s == y + "-" + m + "-" + dd;
    assert s[..4] == y && s[5..7] == m && s[8..] == dd;
  }

  /** A well-formed string with a year of at least 1000 has no leading zero. */
  lemma YearLeadingDigit(s: string)
    requires IsoShape(s)
    ensures IsoFields(s).year >= 1000 <==> s[0] != '0'
  {
    DigitsValue4(s[..4]);
  }

  /** `parseDateString` reads a well-formed string with a four-digit year as
      the date it names (no two-digit-year mapping, no overflow). */
  lemma ParseWellFormed(s: string)
    requires WellFormed(s) && IsoFields(s).year >= 1000
    ensures ParseDateString(s) == Some(IsoFields(s))
  {
    SplitIso(s);
    var d := IsoFields(s);
    var parts := Split(s, '-');
    assert JsNumber(parts[0]) == Some(d.year);
    assert JsNumber(parts[1]) == Some(d.month);
    assert JsNumber(parts[2]) == Some(d.day);
    var mi := d.month as int - 1;
    assert mi / 12 == 0 && mi % 12 + 1 == d.month;
    AddDaysWithinMonth(d.year, d.month, d.day - 1);
    assert MakeLocalDate(d.year, mi, d.day) == d;
  }

  /** Formatting the fields of a well-formed string gives the string back. */
  lemma FormatOfFields(s: string)
    requires WellFormed(s) && IsoFields(s).year >= 1000
    ensures FormatDateString(Some(IsoFields(s))) == s
  {
    YearLeadingDigit(s);
    DigitsRoundTrip(s[..4]);
    Pad2RoundTrip(s[5..7]);
    Pad2RoundTrip(s[8..]);
    assert s == s[..4] + "-" + s[5..7] + "-" + s[8..];
  }

  /** `formatDateString(parseDateString(s)) == s` for well-formed strings with
      four-digit years. */
  lemma ParseFormatRoundTrip(s: string)
    requires WellFormed(s) && IsoFields(s).year >= 1000
    ensures FormatDateString(ParseDateString(s)) == s
  {
    ParseWellFormed(s);
    FormatOfFields(s);
  }

  /** Parsing a formatted date with a four-digit year gives the date back,
      with either parser. */
  lemma FormatParseRoundTrip(d: Date)
    requires ValidDate(d) && 1000 <= d.year <= 9999
    ensures ParseDateString(FormatDateString(Some(d))) == Some(d)
    ensures ParseIso(FormatDateString(Some(d))) == Some(d)
  {
    FormatIsWellFormed(d);
    ParseWellFormed(FormatDateString(Some(d)));
  }

  /** `subDaysToString(addDaysToString(s, n), n) == s` while the shifted
      date keeps a four-digit year. */
  lemma AddSubStringRoundTrip(s: string, n: int)
    requires WellFormed(s) && IsoFields(s).year >= 1000
    requires 1000 <= AddDays(IsoFields(s), n).year <= 9999
    ensures SubDaysToString(AddDaysToString(s, n), n) == s
  {
    var d := IsoFields(s);
    var e := AddDays(d, n);
    FormatParseRoundTrip(e);
    AddSubRoundTrip(d, n);
    FormatOfFields(s);
  }

  /** Past the year, two shaped strings compare by month, then by day. */
  lemma CompareAfterYear(a: string, b: string)
    requires IsoShape(a) && IsoShape(b)
    ensures Compare(a[4..], b[4..]) ==
      if a[5..7] == b[5..7] then Compare(a[8..], b[8..]) else Compare(a[5..7], b[5..7])
  {
    assert a[4..] == [a[4]] + a[5..] && b[4..] == [b[4]] + b[5..];
    CompareAppend([a[4]], a[5..], [b[4]], b[5..]);
    assert a[5..] == a[5..7] + a[7..] && b[5..] == b[5..7] + b[7..];
    CompareAppend(a[5..7], a[7..], b[5..7], b[7..]);
    assert a[7..] == [a[7]] + a[8..] && b[7..] == [b[7]] + b[8..];
    CompareAppend([a[7]], a[8..], [b[7]], b[8..]);
  }

  /** The sign of the first field in which two dates differ. */
  function FieldOrder(x: Date, y: Date): int {
    if x.year != y.year then Sign(x.year - y.year)
    else if x.month != y.month then Sign(x.month - y.month)
    else Sign(x.day - y.day)
  }

  /** Code-unit order on shaped strings is field-by-field numeric order. */
  lemma CompareByFields(a: string, b: string)
    requires IsoShape(a) && IsoShape(b)
    ensures Compare(a, b) == FieldOrder(IsoFields(a), IsoFields(b))
  {
    var x, y := IsoFields(a), IsoFields(b);
    assert a == a[..4] + a[4..] && b == b[..4] + b[4..];
    CompareAppend(a[..4], a[4..], b[..4], b[4..]);
    CompareAfterYear(a, b);
    CompareDigits(a[..4], b[..4]);
    CompareZeroIffEqual(a[..4], b[..4]);
    assert a[..4] == b[..4] <==> x.year == y.year;
    CompareDigits(a[5..7], b[5..7]);
    CompareZeroIffEqual(a[5..7], b[5..7]);
    assert a[5..7] == b[5..7] <==> x.month == y.month;
    CompareDigits(a[8..], b[8..]);
  }

  /** For well-formed strings the sign of `compareDateStrings` is the
      chronological order of the dates they name. */
  lemma CompareIsChronological(a: string, b: string)
    requires WellFormed(a) && WellFormed(b)
    ensures CompareDateStrings(a, b) < 0 <==> Before(IsoFields(a), IsoFields(b))
    ensures CompareDateStrings(a, b) == 0 <==> IsoFields(a) == IsoFields(b)
    ensures CompareDateStrings(a, b) > 0 <==> Before(IsoFields(b), IsoFields(a))
    ensures CompareDateStrings(a, b) < 0 <==> DayNumber(IsoFields(a)) < DayNumber(IsoFields(b))
  {
    CompareByFields(a, b);
    DayNumberOrder(IsoFields(a), IsoFields(b));
  }

  const DayNames: seq<string> := ["Måndag", "Tisdag", "Onsdag", "Torsdag", "Fredag", "Lördag", "Söndag"]

  /** One row of the week grid (`dateLabel`, a locale rendering, is not modelled). */
  datatype WeekDateInfo = WeekDateInfo(date: string, dayName: Option<string>, isToday: bool)

  /** The row for the `k`-th day after `monday`. */
  function DayEntry(monday: Date, k: nat, today: string): WeekDateInfo
    requires ValidDate(monday) && k < 7
  {
    var s := FormatDateString(Some(AddDays(monday, k)));
    WeekDateInfo(s, Some(DayNames[k]), s == today)
  }

  /** The row every iteration yields for an Invalid Date. */
  function InvalidEntry(today: string): WeekDateInfo {
    var s := FormatDateString(None);
    WeekDateInfo(s, None, s == today)
  }

  /** Counting from the week start, day `i` of the week has weekday `i + 1`,
      except the seventh day, a Sunday. */
  lemma WeekdayInWeek(d: Date, i: int)
    requires ValidDate(d) && 0 <= i < 7
    ensures Weekday(AddDays(WeekStartOf(d), i)) == if i == 6 then 0 else i + 1
  {
    WeekStartIsMonday(d);
    WeekdayAfter(WeekStartOf(d), i);
    ModSevenSmall(1 + i);
  }

  /** The rows of a week are consecutive days, Monday to Friday, and each
      row's day name is the name of its weekday. */
  lemma WeekRowsConsecutive(d: Date, k: nat, today: string)
    requires ValidDate(d) && k < 5
    ensures DayNumber(AddDays(WeekStartOf(d), k)) == DayNumber(WeekStartOf(d)) + k
    ensures Weekday(AddDays(WeekStartOf(d), k)) == k + 1
    ensures DayEntry(WeekStartOf(d), k, today).dayName == Some(DayNames[Weekday(AddDays(WeekStartOf(d), k)) - 1])
    ensures DayEntry(WeekStartOf(d), k, today).date == FormatDateString(Some(AddDays(WeekStartOf(d), k)))
    ensures DayEntry(WeekStartOf(d), k, today).isToday <==> FormatDateString(Some(AddDays(WeekStartOf(d), k))) == today
  {
    WeekdayInWeek(d, k);
    AddDaysNumber(WeekStartOf(d), k);
  }

  /** A Monday-to-Friday date is in its own week's rows, at the position of its
      weekday. */
  lemma WeekContainsWeekday(d: Date)
    requires ValidDate(d) && 1 <= Weekday(d) <= 5
    ensures AddDays(WeekStartOf(d), Weekday(d) - 1) == d
  {
    var w := Weekday(d);
    BackToMonday(w, w - 1);
    AddDaysCompose(d, -(w - 1), w - 1);
  }

  /** Iteration `i` of the week loop of `getWeekDates`: the row it pushes,
      or `None` where it skips a Saturday or a Sunday. The rows are those of
      Monday to Friday of the week, and every iteration pushes the "NaN" row
      when the date does not parse. */
  method WeekDay(dateString: string, weekStart: JsDate, i: nat, today: string) returns (row: Option<WeekDateInfo>)
    requires weekStart == GetWeekStart(dateString) && i < 7
    ensures weekStart.Some? ==> (row.Some? <==> i < 5)
    ensures weekStart.Some? && i < 5 ==> row == Some(DayEntry(weekStart.value, i, today))
    ensures weekStart.None? ==> row == Some(InvalidEntry(today))
  {
    var date := AddDaysJs(weekStart, i);
    var dayOfWeek: Option<int> := if date.Some? then Some(Weekday(date.value)) else None;
    if weekStart.Some? {
      WeekdayInWeek(IsoFields(dateString), i);
      assert dayOfWeek.Some? && dayOfWeek.value == if i == 6 then 0 else i + 1;
    }
    if dayOfWeek == Some(0) || dayOfWeek == Some(6) {
      return None;
    }
    var dateStr := FormatDateString(date);
    var dayName := if dayOfWeek.Some? then Some(DayNames[dayOfWeek.value - 1]) else None;
    row := Some(WeekDateInfo(dateStr, dayName, dateStr == today));
  }

  /** The rows pushed by the first `i` iterations of the week loop. */
  ghost predicate WeekPrefix(dates: seq<WeekDateInfo>, weekStart: JsDate, i: nat, today: string) {
    match weekStart
    case Some(monday) =>
      |dates| == (if i < 5 then i else 5) && forall k :: 0 <= k < |dates| ==> dates[k] == DayEntry(monday, k, today)
    case None =>
      |dates| == i && forall k :: 0 <= k < i ==> dates[k] == InvalidEntry(today)
  }

  lemma WeekPrefixStep(dates: seq<WeekDateInfo>, weekStart: JsDate, i: nat, today: string, row: Option<WeekDateInfo>)
    requires WeekPrefix(dates, weekStart, i, today)
    requires weekStart.Some? ==> (row.Some? <==> i < 5)
    requires weekStart.Some? && i < 5 ==> row == Some(DayEntry(weekStart.value, i, today))
    requires weekStart.None? ==> row == Some(InvalidEntry(today))
    ensures WeekPrefix(dates + (if row.Some? then [row.value] else []), weekStart, i + 1, today)
  {
  }

  /** `getWeekDates`, with `today` given by the caller: the Monday to Friday
      rows of the week of `dateString`, skipping the weekend. On an
      unparsable date nothing is skipped: all seven rows read "NaN-NaN-NaN"
      with no day name. */
  method GetWeekDates(dateString: string, today: string) returns (dates: seq<WeekDateInfo>)
    ensures WellFormed(dateString) ==>
      var monday := WeekStartOf(IsoFields(dateString));
      |dates| == 5 && forall k :: 0 <= k < 5 ==> dates[k] == DayEntry(monday, k, today)
    ensures !WellFormed(dateString) ==>
      |dates| == 7 && forall k :: 0 <= k < 7 ==> dates[k] == InvalidEntry(today)
  {
    var weekStart := GetWeekStart(dateString);
    dates := [];
    for i := 0 to 7
      invariant WeekPrefix(dates, weekStart, i, today)
    {
      var row := WeekDay(dateString, weekStart, i, today);
      WeekPrefixStep(dates, weekStart, i, today, row);
      if row.Some? {
        dates := dates + [row.value];
      }
    }
  }
}
