/**
 Civil dates of years 1..9999 and their day numbers (src/core/date_range.cpp).
 `std::chrono::sys_days` counts days from 1970-01-01; the count is defined here from the leap
 rule (Appendix C of RFC 3339) and the month lengths (section 5.7 of RFC 3339).
 */
module Calendar {
  import opened Core
  import opened Numerals

  datatype DateParts = DateParts(year: int, month: int, day: int)

  // One constructor per `throw`: all are std::invalid_argument but YearOverflow, which is
  // std::out_of_range.
  datatype DateError =
    | NotIsoShape | NotNumeric | ComponentRange | NotInCalendar // parse_date, to_sys_days
    | BadRangeOrChunk                                           // split_date_range
    | YearOverflow                                              // add_days
  datatype DateResult<+T> = Good(value: T) | Bad(error: DateError)

  // ---------------------------------------------------------------- calendar

  predicate Leap(y: int) {
    y % 4 == 0 && (y % 100 != 0 || y % 400 == 0)
  }

  function YearLength(y: int): int {
    if Leap(y) then 366 else 365
  }

  function MonthLength(y: int, m: int): int {
    if m == 2 then (if Leap(y) then 29 else 28)
    else if m == 4 || m == 6 || m == 9 || m == 11 then 30
    else 31
  }

  predicate Valid(d: DateParts) {
    1 <= d.year <= 9999 && 1 <= d.month <= 12 && 1 <= d.day <= MonthLength(d.year, d.month)
  }

  predicate Before(a: DateParts, b: DateParts) {
    a.year < b.year
    || (a.year == b.year && (a.month < b.month || (a.month == b.month && a.day < b.day)))
  }

  /** The calendar's own successor, defined without any day count. */
  function NextDay(d: DateParts): DateParts {
    if d.day < MonthLength(d.year, d.month) then d.(day := d.day + 1)
    else if d.month < 12 then DateParts(d.year, d.month + 1, 1)
    else DateParts(d.year + 1, 1, 1)
  }

  // ------------------------------------------------------------- day numbers

  const EPOCH := 719162      // days from 0001-01-01 to 1970-01-01
  const FIRST_DAY := -719162 // 0001-01-01
  const LAST_DAY := 2932896  // 9999-12-31

  /** Days of the years 1..y-1. */
  function DaysBeforeYear(y: int): int {
    365 * (y - 1) + (y - 1) / 4 - (y - 1) / 100 + (y - 1) / 400
  }

  /** Days of the months 1..m-1 of year y; m = 13 stands for the whole year. */
  function DaysBeforeMonth(y: int, m: int): int {
    var common := if m <= 1 then 0 else if m == 2 then 31 else if m == 3 then 59 else if m == 4 then 90
                  else if m == 5 then 120 else if m == 6 then 151 else if m == 7 then 181
                  else if m == 8 then 212 else if m == 9 then 243 else if m == 10 then 273
                  else if m == 11 then 304 else if m == 12 then 334 else 365;
    if m > 2 && Leap(y) then common + 1 else common
  }

  function DayNumber(d: DateParts): int {
    DaysBeforeYear(d.year) + DaysBeforeMonth(d.year, d.month) + d.day - 1 - EPOCH
  }

  /** Adding one to a dividend adds one to the quotient exactly at the multiples of the divisor. */
  lemma QuotientStep(y: int, k: int)
    requires k > 0
    ensures y / k == (y - 1) / k + (if y % k == 0 then 1 else 0)
  {
    var q, r, p, s := y / k, y % k, (y - 1) / k, (y - 1) % k;
    assert y == k * q + r && y - 1 == k * p + s;
    var d := q - p;
    assert k * d == 1 + s - r;
    assert d >= 2 ==> k * d >= 2 * k;
    assert d <= -1 ==> k * d <= -k;
  }

  lemma Multiples(y: int)
    ensures y % 400 == 0 ==> y % 100 == 0
    ensures y % 100 == 0 ==> y % 4 == 0
  {
    assert y == 400 * (y / 400) + y % 400 && y == 100 * (y / 100) + y % 100 && y == 4 * (y / 4) + y % 4;
  }

  lemma YearStep(y: int)
    ensures DaysBeforeYear(y + 1) == DaysBeforeYear(y) + YearLength(y)
  {
    QuotientStep(y, 4);
    QuotientStep(y, 100);
    QuotientStep(y, 400);
    Multiples(y);
  }

  lemma {:induction false} LaterYear(a: int, b: int)
    requires a < b
    ensures DaysBeforeYear(a) + YearLength(a) <= DaysBeforeYear(b)
    decreases b - a
  {
    hide DaysBeforeYear;
    YearStep(b - 1);
    if a == b - 1 {
    } else {
      LaterYear(a, b - 1);
    }
  }

  /** Later dates have larger numbers, so the map from dates to numbers is one-to-one. */
  lemma DayNumberMonotone(a: DateParts, b: DateParts)
    requires Valid(a) && Valid(b)
    ensures Before(a, b) <==> DayNumber(a) < DayNumber(b)
    ensures a == b <==> DayNumber(a) == DayNumber(b)
  {
    hide DayNumber, Valid;
    if Before(a, b) {
      BeforeIsSmaller(a, b);
    } else if a != b {
      BeforeIsSmaller(b, a);
    }
  }

  lemma BeforeIsSmaller(a: DateParts, b: DateParts)
    requires Valid(a) && Valid(b) && Before(a, b)
    ensures DayNumber(a) < DayNumber(b)
  {
    hide DaysBeforeYear;
    if a.year < b.year {
      LaterYear(a.year, b.year);
    }
  }

  /** The day count advances by one exactly where the calendar advances by one day. */
  lemma DayNumberOfNextDay(d: DateParts)
    requires Valid(d)
    ensures DayNumber(NextDay(d)) == DayNumber(d) + 1
    ensures Valid(NextDay(d)) <==> d != DateParts(9999, 12, 31)
  {
    hide DaysBeforeYear;
    YearStep(d.year);
  }

  lemma DayNumberAnchors()
    ensures DayNumber(DateParts(1, 1, 1)) == FIRST_DAY
    ensures DayNumber(DateParts(1970, 1, 1)) == 0
    ensures DayNumber(DateParts(9999, 12, 31)) == LAST_DAY
  {
  }

  /** Month lengths and leap years, as tables. */
  lemma MonthLengths(y: int)
    ensures var feb := if y % 400 == 0 || (y % 4 == 0 && y % 100 != 0) then 29 else 28;
            forall m :: 1 <= m <= 12 ==>
              MonthLength(y, m) == [31, feb, 31, 30, 31, 30, 31, 31, 30, 31, 30, 31][m - 1]
  {
    Multiples(y);
  }

  /** Days around leap days of four kinds of years. */
  lemma KnownDays()
    ensures DayNumber(DateParts(1600, 2, 29)) == -135081 && DayNumber(DateParts(1600, 3, 1)) == -135080
    ensures DayNumber(DateParts(1900, 2, 28)) == -25509 && DayNumber(DateParts(1900, 3, 1)) == -25508
    ensures DayNumber(DateParts(2000, 2, 29)) == 11016 && DayNumber(DateParts(2000, 3, 1)) == 11017
    ensures DayNumber(DateParts(2024, 12, 31)) == 20088 && DayNumber(DateParts(2025, 1, 1)) == 20089
  {
  }

  lemma DayNumberRange(d: DateParts)
    requires Valid(d)
    ensures FIRST_DAY <= DayNumber(d) <= LAST_DAY
  {
    hide DayNumber;
    DayNumberAnchors();
    DayNumberMonotone(DateParts(1, 1, 1), d);
    DayNumberMonotone(d, DateParts(9999, 12, 31));
  }

  // ------------------------------------------------------ number back to date

  function FindYear(n: int, y: int): (r: int)
    requires 1 <= y <= 9999 && DaysBeforeYear(y) <= n < DaysBeforeYear(10000)
    ensures y <= r <= 9999 && DaysBeforeYear(r) <= n < DaysBeforeYear(r + 1)
    decreases 9999 - y
  {
    if n < DaysBeforeYear(y + 1) then y else FindYear(n, y + 1)
  }

  function FindMonth(n: int, y: int, m: int): (r: int)
    requires 1 <= m <= 12 && DaysBeforeMonth(y, m) <= n < YearLength(y)
    ensures m <= r <= 12 && 0 <= n - DaysBeforeMonth(y, r) < MonthLength(y, r)
    decreases 12 - m
  {
    if n < DaysBeforeMonth(y, m + 1) then m else FindMonth(n, y, m + 1)
  }

  function DateInYear(y: int, n: int): (d: DateParts)
    requires 0 <= n < YearLength(y)
    ensures d.year == y && 1 <= d.month <= 12 && 1 <= d.day <= MonthLength(y, d.month)
    ensures DaysBeforeMonth(y, d.month) + d.day - 1 == n
  {
    var m := FindMonth(n, y, 1);
    DateParts(y, m, n - DaysBeforeMonth(y, m) + 1)
  }

  /** `from_sys_days`: the civil date with a given day number. */
  function FromSysDays(n: int): (d: DateParts)
    requires FIRST_DAY <= n <= LAST_DAY
    ensures Valid(d) && DayNumber(d) == n
  {
    var y := FindYear(n + EPOCH, 1);
    YearStep(y);
    DateInYear(y, n + EPOCH - DaysBeforeYear(y))
  }

  /** Valid dates and the integers FIRST_DAY..LAST_DAY are in one-to-one correspondence. */
  lemma CalendarBijection(d: DateParts, n: int)
    requires Valid(d) && FIRST_DAY <= n <= LAST_DAY
    ensures FIRST_DAY <= DayNumber(d) <= LAST_DAY
    ensures FromSysDays(DayNumber(d)) == d
    ensures DayNumber(d) == n <==> d == FromSysDays(n)
  {
    hide DayNumber, Valid, FromSysDays;
    DayNumberRange(d);
    DayNumberMonotone(d, FromSysDays(DayNumber(d)));
    DayNumberMonotone(d, FromSysDays(n));
  }

  /** `to_sys_days`: range checks on the components first, then the calendar check. */
  function ToSysDays(p: DateParts): DateResult<int> {
    if p.year < 1 || p.year > 9999 || p.month < 1 || p.month > 12 || p.day < 1 || p.day > 31 then
      Bad(ComponentRange)
    else if p.day > MonthLength(p.year, p.month) then
      Bad(NotInCalendar)
    else
      Good(DayNumber(p))
  }

  // -------------------------------------------------------------- text form

  function ParseDate(s: string): DateResult<DateParts> {
    if |s| != 10 || s[4] != '-' || s[7] != '-' then Bad(NotIsoShape)
    else
      match (ReadInt(s[0..4]), ReadInt(s[5..7]), ReadInt(s[8..10]))
      case (Some(y), Some(m), Some(d)) =>
        var parts := DateParts(y, m, d);
        (match ToSysDays(parts)
         case Good(_) => Good(parts)
         case Bad(e) => Bad(e))
      case _ => Bad(NotNumeric)
  }

  function TwoDigits(n: int): (s: Bytes)
    requires 0 <= n <= 99
    ensures |s| == 2 && AllDigits(s) && ReadInt(s) == Some(n)
  {
    var s: Bytes := [DigitChar(n / 10), DigitChar(n % 10)];
    assert s[..1] == [s[0]] && s[..1][..0] == [];
    assert DecimalValue(s[..1]) == n / 10;
    s
  }

  function FourDigits(n: int): (s: Bytes)
    requires 0 <= n <= 9999
    ensures |s| == 4 && AllDigits(s) && ReadInt(s) == Some(n)
  {
    var hi, lo := TwoDigits(n / 100), TwoDigits(n % 100);
    var s: Bytes := hi + lo;
    assert s[..3][..2] == hi && s[..3][2] == lo[0] && lo[..1][..0] == [];
    assert DecimalValue(s) == 10 * DecimalValue(s[..3]) + (lo[1] as int - '0' as int);
    assert DecimalValue(s[..3]) == 10 * DecimalValue(hi) + (lo[0] as int - '0' as int);
    assert DecimalValue(lo) == 10 * DecimalValue(lo[..1]) + (lo[1] as int - '0' as int);
    s
  }

  /** `format_date`: `{:04d}-{:02d}-{:02d}` of a date that passed the calendar check. */
  function FormatDate(p: DateParts): DateResult<Bytes> {
    match ToSysDays(p)
    case Bad(e) => Bad(e)
    case Good(_) => Good(FourDigits(p.year) + "-" + TwoDigits(p.month) + "-" + TwoDigits(p.day))
  }

  /** Formatting a valid date and parsing the text gives the date back. */
  lemma ParseOfFormat(d: DateParts)
    requires Valid(d)
    ensures FormatDate(d).Good? && |FormatDate(d).value| == 10
    ensures ParseDate(FormatDate(d).value) == Good(d)
  {
    var s := FormatDate(d).value;
    assert s[0..4] == FourDigits(d.year) && s[5..7] == TwoDigits(d.month) && s[8..10] == TwoDigits(d.day);
  }

  /** Every accepted text is canonical: a minus sign read in any field never survives the range check. */
  lemma FormatOfParse(s: string)
    requires ParseDate(s).Good?
    ensures Valid(ParseDate(s).value)
    ensures AllDigits(s[0..4]) && AllDigits(s[5..7]) && AllDigits(s[8..10])
    ensures FormatDate(ParseDate(s).value) == Good(s)
  {
    var d := ParseDate(s).value;
    DigitsDetermined(s[0..4], FourDigits(d.year));
    DigitsDetermined(s[5..7], TwoDigits(d.month));
    DigitsDetermined(s[8..10], TwoDigits(d.day));
    assert s == s[0..4] + "-" + s[5..7] + "-" + s[8..10];
  }

  /** Where the parts of a date stand in its text. */
  lemma DateLayout(d: DateParts)
    requires Valid(d)
    ensures var s := FormatDate(d).value;
            && |s| == 10 && s[4] == '-' && s[7] == '-'
            && AllDigits(s[0..4]) && DecimalValue(s[0..4]) == d.year
            && AllDigits(s[5..7]) && DecimalValue(s[5..7]) == d.month
            && AllDigits(s[8..10]) && DecimalValue(s[8..10]) == d.day
  {
    var s := FormatDate(d).value;
    assert s[0..4] == FourDigits(d.year) && s[5..7] == TwoDigits(d.month) && s[8..10] == TwoDigits(d.day);
  }

  /** Which texts are refused, and with which of the errors: the first check that fails. */
  lemma ParseErrors(s: string)
    ensures ParseDate(s) == Bad(NotIsoShape) <==> |s| != 10 || s[4] != '-' || s[7] != '-'
    ensures |s| == 10 && s[4] == '-' && s[7] == '-' ==>
              var y, m, d := ReadInt(s[0..4]), ReadInt(s[5..7]), ReadInt(s[8..10]);
              if y.None? || m.None? || d.None? then ParseDate(s) == Bad(NotNumeric)
              else if !(1 <= y.value <= 9999 && 1 <= m.value <= 12 && 1 <= d.value <= 31) then
                ParseDate(s) == Bad(ComponentRange)
              else if d.value > MonthLength(y.value, m.value) then ParseDate(s) == Bad(NotInCalendar)
              else ParseDate(s) == Good(DateParts(y.value, m.value, d.value))
  {
  }

  /** Which texts are accepted, and which date each one denotes: parse inverts format, both ways. */
  lemma ParseIsInverseOfFormat(s: string, d: DateParts)
    ensures ParseDate(s) == Good(d) <==> Valid(d) && FormatDate(d) == Good(s)
  {
    if ParseDate(s) == Good(d) {
      FormatOfParse(s);
    }
    if Valid(d) {
      ParseOfFormat(d);
    }
  }

  // --------------------------------------------------------- day arithmetic

  function DaysBetween(start: string, end: string): DateResult<int> {
    match (ParseDate(start), ParseDate(end))
    case (Bad(e), _) => Bad(e)
    case (_, Bad(e)) => Bad(e)
    case (Good(a), Good(b)) => Good(DayNumber(b) - DayNumber(a))
  }

  function AddDays(date: string, days: int): DateResult<Bytes> {
    match ParseDate(date)
    case Bad(e) => Bad(e)
    case Good(p) =>
      var n := DayNumber(p) + days;
      if n < FIRST_DAY || n > LAST_DAY then Bad(YearOverflow)
      else FormatDate(FromSysDays(n))
  }

  /** The text of the date with day number `n`. */
  function DateText(n: int): (s: Bytes)
    requires FIRST_DAY <= n <= LAST_DAY
    ensures ParseDate(s) == Good(FromSysDays(n))
    ensures |s| == 10
  {
    ParseOfFormat(FromSysDays(n));
    FormatDate(FromSysDays(n)).value
  }

  /** Accepted texts are exactly the texts of the day numbers. */
  lemma TextOfDay(s: string)
    requires ParseDate(s).Good?
    ensures FIRST_DAY <= DayNumber(ParseDate(s).value) <= LAST_DAY
    ensures DateText(DayNumber(ParseDate(s).value)) == s
  {
    hide DayNumber, FromSysDays, ParseDate, Valid;
    FormatOfParse(s);
    CalendarBijection(ParseDate(s).value, FIRST_DAY);
  }

  /**
   `add_days` moves by exactly `days`, and it raises out-of-range exactly when the sum leaves
   years 1..9999. */
  lemma AddDaysMoves(date: string, days: int)
    requires ParseDate(date).Good?
    ensures var n := DayNumber(ParseDate(date).value) + days;
            (FIRST_DAY <= n <= LAST_DAY <==> AddDays(date, days).Good?)
            && (AddDays(date, days).Bad? <==> AddDays(date, days) == Bad(YearOverflow))
    ensures AddDays(date, days).Good? ==> DaysBetween(date, AddDays(date, days).value) == Good(days)
    ensures FIRST_DAY <= DayNumber(ParseDate(date).value) + days <= LAST_DAY ==>
              AddDays(date, days) == Good(DateText(DayNumber(ParseDate(date).value) + days))
  {
    hide DayNumber, FromSysDays, FormatDate, Valid;
    var n := DayNumber(ParseDate(date).value) + days;
    if FIRST_DAY <= n <= LAST_DAY {
      ParseOfFormat(FromSysDays(n));
    }
  }

  /** The difference of two dates added to the first gives the second; the difference fits int32. */
  lemma AddDaysOfDaysBetween(a: string, b: string)
    requires DaysBetween(a, b).Good?
    ensures -INT32_MAX <= DaysBetween(a, b).value <= INT32_MAX
    ensures AddDays(a, DaysBetween(a, b).value) == Good(b)
    ensures DaysBetween(a, b).value == 0 <==> a == b
  {
    hide DayNumber, FromSysDays, ParseDate, Valid;
    TextOfDay(a);
    TextOfDay(b);
    AddDaysMoves(a, DaysBetween(a, b).value);
    assert DaysBetween(a, b).value == 0 ==> DayNumber(ParseDate(a).value) == DayNumber(ParseDate(b).value);
  }

  /** Two moves are one move by the sum. */
  lemma AddDaysComposes(date: string, m: int, n: int)
    requires AddDays(date, m).Good?
    ensures AddDays(AddDays(date, m).value, n) == AddDays(date, m + n)
  {
    hide DayNumber, FromSysDays, FormatDate, Valid;
    AddDaysMoves(date, m);
    ParseOfFormat(FromSysDays(DayNumber(ParseDate(date).value) + m));
  }

  /** Which error each operation raises: that of the first date that is refused, or of the components. */
  lemma DayErrors(a: string, b: string, days: int, d: DateParts)
    ensures ParseDate(a).Bad? ==>
              DaysBetween(a, b) == Bad(ParseDate(a).error) && AddDays(a, days) == Bad(ParseDate(a).error)
    ensures ParseDate(a).Good? && ParseDate(b).Bad? ==> DaysBetween(a, b) == Bad(ParseDate(b).error)
    ensures ParseDate(a).Good? && ParseDate(b).Good? ==> DaysBetween(a, b).Good?
    ensures !(1 <= d.year <= 9999 && 1 <= d.month <= 12 && 1 <= d.day <= 31) ==> FormatDate(d) == Bad(ComponentRange)
    ensures 1 <= d.year <= 9999 && 1 <= d.month <= 12 && MonthLength(d.year, d.month) < d.day <= 31 ==>
              FormatDate(d) == Bad(NotInCalendar)
  {
    hide ParseDate, DayNumber, FromSysDays;
  }

  /** On the texts of day numbers the two operations are integer subtraction and addition. */
  lemma TextArithmetic(m: int, n: int)
    requires FIRST_DAY <= m <= LAST_DAY && FIRST_DAY <= n <= LAST_DAY
    ensures DaysBetween(DateText(m), DateText(n)) == Good(n - m)
    ensures AddDays(DateText(m), n - m) == Good(DateText(n))
  {
    hide DayNumber, FromSysDays, ParseDate, FormatDate, Valid;
    ParseOfFormat(FromSysDays(n));
  }
}
