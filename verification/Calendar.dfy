/**
 * Days, and the strings that carry them. A day is normalised through the time-value
 * arithmetic of section 21.4.1 of ECMA-262 and compared back.
 */
module Calendar {
  import opened Text

  datatype Date = Date(year: int, month: int, day: int)

  datatype Precision = ByYear | ByQuarter | ByDay

  // ------------------------------------------------- the Gregorian calendar

  predicate Leap(y: int) {
    y % 4 == 0 && (y % 100 != 0 || y % 400 == 0)
  }

  /** The table of Appendix C of RFC 3339. */
  function DaysInMonth(y: int, m: int): (n: int)
    requires 1 <= m <= 12
    ensures 28 <= n <= 31
  {
    if m == 2 then (if Leap(y) then 29 else 28)
    else if m == 4 || m == 6 || m == 9 || m == 11 then 30 else 31
  }

  /** A day that exists. */
  predicate RealDate(d: Date) {
    1 <= d.month <= 12 && 1 <= d.day <= DaysInMonth(d.year, d.month)
  }

  /** The following day, by the calendar alone. */
  function Tomorrow(d: Date): (t: Date)
    requires RealDate(d)
    ensures RealDate(t)
  {
    if d.day < DaysInMonth(d.year, d.month) then d.(day := d.day + 1)
    else if d.month < 12 then Date(d.year, d.month + 1, 1)
    else Date(d.year + 1, 1, 1)
  }

  predicate Earlier(a: Date, b: Date) {
    || a.year < b.year
    || (a.year == b.year && (a.month < b.month || (a.month == b.month && a.day < b.day)))
  }

  // ------------------------------------------------------------ time values

  function DaysInYear(y: int): int { if Leap(y) then 366 else 365 }

  /** The day number of 1 January, counted year by year from the epoch. */
  function DayFromYear(y: int): int
    decreases if y < 1970 then 1970 - y else y - 1970
  {
    if y == 1970 then 0
    else if y > 1970 then DayFromYear(y - 1) + DaysInYear(y - 1)
    else DayFromYear(y + 1) - DaysInYear(y)
  }

  lemma YearLength(y: int)
    ensures DayFromYear(y + 1) == DayFromYear(y) + DaysInYear(y)
  {
  }

  function ClosedForm(y: int): int {
    365 * (y - 1970) + Quotient(y - 1969, 4) - Quotient(y - 1901, 100) + Quotient(y - 1601, 400)
  }

  /** Rounded down, as the divisors are positive. */
  function Quotient(n: int, d: int): int
    requires d > 0
  {
    n / d
  }

  /** Counting agrees with the closed form of section 21.4.1.3 of ECMA-262. */
  lemma {:induction false} DayFromYearClosedForm(y: int)
    ensures DayFromYear(y) == ClosedForm(y)
    decreases if y < 1970 then 1970 - y else y - 1970
  {
    if y > 1970 {
      DayFromYearClosedForm(y - 1); ClosedFormStep(y - 1);
    } else if y < 1970 {
      DayFromYearClosedForm(y + 1); ClosedFormStep(y);
    }
  }

  lemma ClosedFormStep(y: int)
    ensures ClosedForm(y + 1) == ClosedForm(y) + DaysInYear(y)
  {
    hide Quotient, DaysInYear;
    FoursCounted(y); HundredsCounted(y); FourHundredsCounted(y);
    LeapDayCounted(y);
  }

  lemma LeapDayCounted(y: int)
    ensures DaysInYear(y) == 365 + (if y % 4 == 0 then 1 else 0) - (if y % 100 == 0 then 1 else 0) + (if y % 400 == 0 then 1 else 0)
  {
    if y % 400 == 0 { FourHundredsAreHundreds(y); }
    if y % 100 == 0 { HundredsAreFours(y); }
  }

  lemma FourHundredsAreHundreds(y: int)
    requires y % 400 == 0
    ensures y % 100 == 0
  {
    assert y == 100 * (4 * (y / 400));
  }

  lemma HundredsAreFours(y: int)
    requires y % 100 == 0
    ensures y % 4 == 0
  {
    assert y == 4 * (25 * (y / 100));
  }

  lemma FoursCounted(y: int)
    ensures Quotient(y - 1968, 4) - Quotient(y - 1969, 4) == if y % 4 == 0 then 1 else 0
  {
  }

  lemma HundredsCounted(y: int)
    ensures Quotient(y - 1900, 100) - Quotient(y - 1901, 100) == if y % 100 == 0 then 1 else 0
  {
  }

  lemma FourHundredsCounted(y: int)
    ensures Quotient(y - 1600, 400) - Quotient(y - 1601, 400) == if y % 400 == 0 then 1 else 0
  {
  }

  lemma {:induction false} YearsGrow(y: int, z: int)
    requires y < z
    ensures DayFromYear(y) + DaysInYear(y) <= DayFromYear(z)
    decreases z - y
  {
    YearLength(z - 1);
    if y < z - 1 { YearsGrow(y, z - 1); } else { YearLength(y); }
  }

  /** Days of the year before month m; m = 13 gives the length of the year. */
  function DaysBefore(y: int, m: int): int
    requires 1 <= m <= 13
  {
    if m == 1 then 0 else DaysBefore(y, m - 1) + DaysInMonth(y, m - 1)
  }

  lemma DaysBeforeMonths(y: int)
    ensures DaysBefore(y, 13) == DaysInYear(y)
  {
    var february := DaysBefore(y, 3);
    assert DaysBefore(y, 2) == 31;
    assert february == 59 + DaysInYear(y) - 365;
    assert DaysBefore(y, 5) == february + 61;
    assert DaysBefore(y, 7) == february + 122;
    assert DaysBefore(y, 9) == february + 184;
    assert DaysBefore(y, 11) == february + 245;
  }

  /** The month starts of section 21.4.1 of ECMA-262, counted from zero. */
  lemma {:induction false} MonthStarts(y: int, m: int)
    requires 1 <= m <= 12
    ensures DaysBefore(y, m)
         == [0, 31, 59, 90, 120, 151, 181, 212, 243, 273, 304, 334][m - 1]
          + if m > 2 && y % 4 == 0 && (y % 100 != 0 || y % 400 == 0) then 1 else 0
  {
    if m > 1 { MonthStarts(y, m - 1); }
  }

  /** With the year begun in March, the months before one of them fill this many days. */
  lemma MonthsFromMarch(y: int, m: int)
    requires 1 <= m <= 12
    ensures DaysBefore(y, m) == if m <= 2 then (153 * (m + 9) + 2) / 5 - 306
                                else (153 * (m - 3) + 2) / 5 + DaysInYear(y) - 306
  {
    MonthStarts(y, m);
  }

  /** Years counted as of the first of March of the year before, four hundred by four hundred. */
  lemma YearStartFromMarch(y: int)
    ensures DayFromYear(y) == 365 * (y - 1) + Quotient(y - 1, 4) - Quotient(y - 1, 100) + Quotient(y - 1, 400) - 719162
  {
    DayFromYearClosedForm(y);
    FoursShift(y - 1); HundredsShift(y - 1); FourHundredsShift(y - 1);
    hide Quotient, DayFromYear;
  }

  lemma FoursShift(y: int)
    ensures Quotient(y - 1968, 4) == Quotient(y, 4) - 492
  {
  }

  lemma HundredsShift(y: int)
    ensures Quotient(y - 1900, 100) == Quotient(y, 100) - 19
  {
  }

  lemma FourHundredsShift(y: int)
    ensures Quotient(y - 1600, 400) == Quotient(y, 400) - 4
  {
  }

  /** Numbering a day agrees with a closed form that has neither a table nor a leap rule. */
  lemma DayNumberClosedForm(d: Date)
    requires 1 <= d.month <= 12
    ensures var y, m := if d.month <= 2 then d.year - 1 else d.year, if d.month <= 2 then d.month + 9 else d.month - 3;
      DayNumber(d) == 365 * y + y / 4 - y / 100 + y / 400 + (153 * m + 2) / 5 + d.day - 719469
  {
    MonthsFromMarch(d.year, d.month);
    if d.month <= 2 {
      YearStartFromMarch(d.year);
    } else {
      YearLength(d.year); YearStartFromMarch(d.year + 1);
    }
    hide DayFromYear, DaysBefore, DaysInYear;
  }

  lemma {:induction false} MonthsGrow(y: int, m: int, k: int)
    requires 1 <= m < k <= 13
    ensures 0 <= DaysBefore(y, m)
    ensures DaysBefore(y, m) + DaysInMonth(y, m) <= DaysBefore(y, k)
    decreases k
  {
    if m > 1 { MonthsGrow(y, m - 1, m); }
    if m < k - 1 { MonthsGrow(y, m, k - 1); }
  }

  /** MakeDay: the month (from zero) and the day may lie outside their ranges. */
  function MakeDay(year: int, month0: int, day: int): int {
    var y, m := year + month0 / 12, month0 % 12;
    DayFromYear(y) + DaysBefore(y, m + 1) + day - 1
  }

  /** MakeDay of a date whose month is in range. */
  function DayNumber(d: Date): int
    requires 1 <= d.month <= 12
  {
    DayFromYear(d.year) + DaysBefore(d.year, d.month) + d.day - 1
  }

  lemma MakeDayInRange(y: int, m: int, d: int)
    requires 1 <= m <= 12
    ensures MakeDay(y, m - 1, d) == DayNumber(Date(y, m, d))
    ensures MakeDay(y, m, 0) == DayNumber(Date(y, m, DaysInMonth(y, m)))
  {
    assert (m - 1) / 12 == 0 && (m - 1) % 12 == m - 1;
    MonthLength(y, m);
    if m < 12 {
      assert m / 12 == 0 && m % 12 == m;
    } else {
      assert m / 12 == 1 && m % 12 == 0;
      YearLength(y); DaysBeforeMonths(y);
    }
  }

  lemma MonthLength(y: int, m: int)
    requires 1 <= m <= 12
    ensures DaysBefore(y, m + 1) == DaysBefore(y, m) + DaysInMonth(y, m)
  {
  }

  /** Date.UTC: a year below one hundred is read as nineteen-hundred-and-something. */
  function UTC(year: int, month0: int, day: int): int {
    MakeDay(if 0 <= year <= 99 then 1900 + year else year, month0, day)
  }

  function YearFrom(n: int, y: int): (r: int)
    ensures DayFromYear(r) <= n < DayFromYear(r + 1)
    decreases if n < DayFromYear(y) then 1 else 0, if n < DayFromYear(y) then DayFromYear(y) - n else n - DayFromYear(y)
  {
    YearLength(y); YearLength(y - 1);
    if n < DayFromYear(y) then YearFrom(n, y - 1)
    else if n >= DayFromYear(y + 1) then YearFrom(n, y + 1)
    else y
  }

  function MonthFrom(dayOfYear: int, y: int, m: int): (r: int)
    requires 1 <= m <= 12
    requires DaysBefore(y, m) <= dayOfYear < DaysBefore(y, 13)
    ensures m <= r <= 12 && DaysBefore(y, r) <= dayOfYear < DaysBefore(y, r + 1)
    decreases 12 - m
  {
    if dayOfYear < DaysBefore(y, m + 1) then m else MonthFrom(dayOfYear, y, m + 1)
  }

  /** getUTCFullYear, getUTCMonth + 1 and getUTCDate of a day number. */
  function FromDayNumber(n: int): (d: Date)
    ensures RealDate(d)
  {
    var y := YearFrom(n, 1970);
    YearLength(y); DaysBeforeMonths(y);
    var k := n - DayFromYear(y);
    var m := MonthFrom(k, y, 1);
    Date(y, m, k - DaysBefore(y, m) + 1)
  }

  lemma DayNumberOfReal(d: Date)
    requires RealDate(d)
    ensures DayFromYear(d.year) <= DayNumber(d) < DayFromYear(d.year + 1)
  {
    YearLength(d.year); DaysBeforeMonths(d.year); MonthsGrow(d.year, d.month, 13);
  }

  /** Day numbers are ordered as the calendar is. */
  lemma DayNumberOrder(a: Date, b: Date)
    requires RealDate(a) && RealDate(b)
    ensures DayNumber(a) < DayNumber(b) <==> Earlier(a, b)
    ensures DayNumber(a) == DayNumber(b) ==> a == b
  {
    DayNumberOfReal(a); DayNumberOfReal(b);
    if a.year < b.year {
      YearsGrow(a.year, b.year); YearLength(a.year);
    } else if b.year < a.year {
      YearsGrow(b.year, a.year); YearLength(b.year);
    } else if a.month < b.month {
      MonthsGrow(a.year, a.month, b.month);
    } else if b.month < a.month {
      MonthsGrow(a.year, b.month, a.month);
    }
  }

  lemma NumberOfFromDayNumber(n: int)
    ensures DayNumber(FromDayNumber(n)) == n
  {
  }

  lemma FromDayNumberOfNumber(d: Date, n: int)
    requires RealDate(d) && n == DayNumber(d)
    ensures FromDayNumber(n) == d
  {
    NumberOfFromDayNumber(n);
    DayNumberOrder(FromDayNumber(n), d);
  }

  /** Reading a day number back and numbering a day are inverse to each other. */
  lemma DayNumberInverse(d: Date, n: int)
    requires RealDate(d)
    ensures n == DayNumber(d) <==> d == FromDayNumber(n)
  {
    if n == DayNumber(d) { FromDayNumberOfNumber(d, n); }
    if d == FromDayNumber(n) { NumberOfFromDayNumber(n); }
  }

  lemma TomorrowsNumber(d: Date)
    requires RealDate(d)
    ensures DayNumber(Tomorrow(d)) == DayNumber(d) + 1
  {
    if d.day < DaysInMonth(d.year, d.month) {
    } else if d.month < 12 {
      MonthLength(d.year, d.month);
    } else {
      YearLength(d.year);
      DaysBeforeMonths(d.year); MonthLength(d.year, 12);
      assert DayNumber(Tomorrow(d)) == DayFromYear(d.year + 1);
    }
  }

  /** One more on the day number is the next day of the calendar. */
  lemma TomorrowIsSuccessor(d: Date)
    requires RealDate(d)
    ensures FromDayNumber(DayNumber(d) + 1) == Tomorrow(d)
  {
    TomorrowsNumber(d);
    FromDayNumberOfNumber(Tomorrow(d), DayNumber(d) + 1);
  }

  /** setUTCDate(getUTCDate() + 1) is the next day, wherever the month ends. */
  lemma NextUTCDate(d: Date)
    requires RealDate(d)
    ensures FromDayNumber(MakeDay(d.year, d.month - 1, d.day + 1)) == Tomorrow(d)
  {
    MakeDayInRange(d.year, d.month, d.day + 1);
    TomorrowIsSuccessor(d);
  }

  // ---------------------------------------------------------------- strings

  /** The shape dddd-dd-dd. */
  predicate Shaped(s: string) {
    && |s| == 10 && s[4] == '-' && s[7] == '-'
    && IsDigit(s[0]) && IsDigit(s[1]) && IsDigit(s[2]) && IsDigit(s[3])
    && IsDigit(s[5]) && IsDigit(s[6]) && IsDigit(s[8]) && IsDigit(s[9])
  }

  function Pair(a: char, b: char): (n: int)
    requires IsDigit(a) && IsDigit(b)
    ensures 0 <= n <= 99
  {
    10 * DigitValue(a) + DigitValue(b)
  }

  function Parse(s: string): (d: Date)
    requires Shaped(s)
    ensures 0 <= d.year <= 9999 && 0 <= d.month <= 99 && 0 <= d.day <= 99
  {
    Date(100 * Pair(s[0], s[1]) + Pair(s[2], s[3]), Pair(s[5], s[6]), Pair(s[8], s[9]))
  }

  function Pad2(n: int): string
    requires 0 <= n <= 99
  {
    [Digit(n / 10), Digit(n % 10)]
  }

  function Format(d: Date): (s: string)
    requires 0 <= d.year <= 9999 && 0 <= d.month <= 99 && 0 <= d.day <= 99
    ensures Shaped(s) && Parse(s) == d
  {
    Pad2(d.year / 100) + Pad2(d.year % 100) + "-" + Pad2(d.month) + "-" + Pad2(d.day)
  }

  lemma FormatOfParse(s: string)
    requires Shaped(s)
    ensures Format(Parse(s)) == s
  {
    var d := Parse(s);
    PairComesBack(s[0], s[1]); PairComesBack(s[2], s[3]); PairComesBack(s[5], s[6]); PairComesBack(s[8], s[9]);
    assert d.year / 100 == Pair(s[0], s[1]) && d.year % 100 == Pair(s[2], s[3]);
    assert s == s[..2] + s[2..4] + "-" + s[5..7] + "-" + s[8..];
  }

  lemma PairComesBack(a: char, b: char)
    requires IsDigit(a) && IsDigit(b)
    ensures Pad2(Pair(a, b)) == [a, b]
  {
    assert Pair(a, b) / 10 == DigitValue(a) && Pair(a, b) % 10 == DigitValue(b);
  }

  /** The string names a day of the calendar, in the years a probe can represent. */
  predicate RealDay(s: string) {
    Shaped(s) && RealDate(Parse(s)) && 100 <= Parse(s).year
  }

  /** The probe: numbered by Date.UTC and read back, the date is the one that was written. */
  predicate IsIsoDate(s: string) {
    Shaped(s) &&
    var d := Parse(s);
    FromDayNumber(UTC(d.year, d.month - 1, d.day)) == d
  }

  /** Day numbers at or past a year's start belong to that year or a later one. */
  lemma YearAtLeast(n: int, y: int)
    requires DayFromYear(y) <= n
    ensures y <= FromDayNumber(n).year
  {
    var r := FromDayNumber(n).year;
    assert n < DayFromYear(r + 1);
    if r + 1 < y { YearsGrow(r + 1, y); }
  }

  /** A two-digit year comes back from the probe as another year. */
  lemma TwoDigitYearIsMoved(y: int, m: int, d: int)
    requires 0 <= y <= 99 && -1 <= m <= 98 && 0 <= d
    ensures 1899 <= FromDayNumber(UTC(y, m, d)).year
  {
    var z := 1900 + y + m / 12;
    var start := DaysBefore(z, m % 12 + 1);
    assert UTC(y, m, d) == DayFromYear(z) + start + d - 1;
    YearLength(1899); DaysBeforeMonths(z); MonthsGrow(z, m % 12 + 1, 13);
    if z == 1899 {
      assert m == -1 && m % 12 == 11;
    } else if z > 1900 {
      YearsGrow(1900, z);
    }
    YearAtLeast(UTC(y, m, d), 1899);
  }

  lemma ProbeOfRealDay(d: Date)
    requires RealDate(d) && 100 <= d.year
    ensures FromDayNumber(UTC(d.year, d.month - 1, d.day)) == d
  {
    MakeDayInRange(d.year, d.month, d.day);
    FromDayNumberOfNumber(d, DayNumber(d));
  }

  /** The probe accepts exactly the real days of the years 0100 to 9999. */
  lemma IsoDatesAreRealDays(s: string)
    ensures IsIsoDate(s) <==> RealDay(s)
  {
    if Shaped(s) {
      var d := Parse(s);
      if d.year <= 99 {
        TwoDigitYearIsMoved(d.year, d.month - 1, d.day);
      } else if RealDate(d) {
        ProbeOfRealDay(d);
      }
    }
  }

  /** The accepted strings by the calendar's literal table: the year, then the month, then the day. */
  lemma IsoDatesByTheTable(s: string)
    ensures IsIsoDate(s)
       <==> Shaped(s) &&
            var y, m, d := Parse(s).year, Parse(s).month, Parse(s).day;
            var february := if y % 4 == 0 && (y % 100 != 0 || y % 400 == 0) then 29 else 28;
            100 <= y && 1 <= m <= 12 && 1 <= d <= [31, february, 31, 30, 31, 30, 31, 31, 30, 31, 30, 31][m - 1]
  {
    IsoDatesAreRealDays(s);
    hide IsIsoDate;
  }

  /** On date strings the code-unit order is the order of the days (RFC 3339, section 5.1). */
  lemma StringOrderIsDayOrder(s: string, t: string)
    requires RealDay(s) && RealDay(t)
    ensures AtMost(s, t) <==> DayNumber(Parse(s)) <= DayNumber(Parse(t))
  {
    var a, b := Parse(s), Parse(t);
    DayNumberOrder(a, b); DayNumberOrder(b, a);
    if s == t {
      AtMostTotal(s, t);
    } else {
      var k := FirstDifference(s, t);
      AtMostAtFirstDifference(s, t, k);
      DateAtFirstDifference(s, t, k);
    }
  }

  lemma FirstDifference(s: string, t: string) returns (k: nat)
    requires |s| == |t| && s != t
    ensures k < |s| && s[..k] == t[..k] && s[k] != t[k]
  {
    k := 0;
    while k < |s| && s[k] == t[k]
      invariant 0 <= k <= |s| && s[..k] == t[..k]
    {
      k := k + 1;
    }
  }

  lemma DateAtFirstDifference(s: string, t: string, k: nat)
    requires Shaped(s) && Shaped(t)
    requires k < 10 && s[..k] == t[..k] && s[k] != t[k]
    ensures Parse(s) != Parse(t)
    ensures s[k] < t[k] <==> Earlier(Parse(s), Parse(t))
  {
    assert forall i :: 0 <= i < k ==> s[i] == s[..k][i] == t[..k][i] == t[i];
    assert k != 4 && k != 7;
    if k <= 1 { assert Pair(s[0], s[1]) != Pair(t[0], t[1]); }
    else if k <= 3 { assert Pair(s[2], s[3]) != Pair(t[2], t[3]); }
  }

  // ---------------------------------------------------------------- periods

  /** `toISOString().slice(0, 10)`: a year above 9999 prints with a sign and six digits. */
  function IsoPrefix(d: Date): (s: string)
    requires RealDate(d) && 0 <= d.year <= 10000
  {
    if d.year <= 9999 then Format(d) else "+010000-" + Pad2(d.month)
  }

  /** Day zero of a month is the last day of the month before. */
  lemma LastDayOfMonth(y: int, m: int)
    requires 100 <= y && 1 <= m <= 12
    ensures FromDayNumber(UTC(y, m, 0)) == Date(y, m, DaysInMonth(y, m))
  {
    MakeDayInRange(y, m, 0);
    var d := Date(y, m, DaysInMonth(y, m));
    FromDayNumberOfNumber(d, DayNumber(d));
  }

  /** The month a quarter ends in. */
  function QuarterEnd(month: int): (m: int)
    requires 1 <= month <= 12
    ensures m == 3 || m == 6 || m == 9 || m == 12
    ensures month <= m <= month + 2
  {
    ((month - 1) / 3 + 1) * 3
  }

  /** Where a quarter or a year ends, by the calendar. */
  function PeriodEnd(d: Date, precision: Precision): (e: Date)
    requires RealDate(d) && 100 <= d.year
    ensures RealDate(e) && e.year == d.year
  {
    match precision
    case ByYear => Date(d.year, 12, 31)
    case ByQuarter => Date(d.year, QuarterEnd(d.month), DaysInMonth(d.year, QuarterEnd(d.month)))
    case ByDay => d
  }

  /** `${year}` is not padded, so the result is a date string only for a year of four digits. */
  function PeriodEndDate(date: string, precision: Precision): (s: string)
    requires RealDay(date) && 1000 <= Parse(date).year
    ensures RealDay(s)
  {
    Format(PeriodEnd(Parse(date), precision))
  }

  /** The following day as it prints. */
  function DayAfter(date: string): string
    requires RealDay(date)
  {
    IsoPrefix(Tomorrow(Parse(date)))
  }

  function ProbedMonthEnd(y: int, m: int): (e: Date)
    requires 100 <= y && 1 <= m <= 12
    ensures e == Date(y, m, DaysInMonth(y, m))
  {
    LastDayOfMonth(y, m);
    Date(y, m, FromDayNumber(UTC(y, m, 0)).day)
  }

  /** periodEndDate: the last day of a quarter is day zero of the month after it. */
  function ProbedPeriodEnd(date: string, precision: Precision): (s: string)
    requires RealDay(date) && 1000 <= Parse(date).year
    ensures s == PeriodEndDate(date, precision)
  {
    var d := Parse(date);
    match precision
    case ByYear => Format(Date(d.year, 12, 31))
    case ByQuarter => Format(ProbedMonthEnd(d.year, QuarterEnd(d.month)))
    case ByDay => FormatOfParse(date); date
  }

  /** A Date at midnight UTC. */
  class UTCDate {
    var day: int

    constructor (date: string)
      requires RealDay(date)
      ensures FromDayNumber(day) == Parse(date)
    {
      day := UTC(Parse(date).year, Parse(date).month - 1, Parse(date).day);
      new;
      ProbeOfRealDay(Parse(date));
    }

    method SetUTCDate(dayOfMonth: int)
      modifies this
      ensures var d := FromDayNumber(old(day)); day == MakeDay(d.year, d.month - 1, dayOfMonth)
    {
      var d := FromDayNumber(day);
      day := MakeDay(d.year, d.month - 1, dayOfMonth);
    }
  }

  /** dayAfter: the day of the month is set to one more, wherever that leads. */
  method NextDay(date: string) returns (s: string)
    requires RealDay(date)
    ensures s == DayAfter(date)
  {
    hide FromDayNumber, UTC, MakeDay, IsoPrefix, RealDay, RealDate, Parse, Shaped, Tomorrow;
    TomorrowPrints(date);
    var next := new UTCDate(date);
    next.SetUTCDate(FromDayNumber(next.day).day + 1);
    NextUTCDate(Parse(date));
    s := IsoPrefix(FromDayNumber(next.day));
  }

  lemma TomorrowPrints(date: string)
    requires RealDay(date)
    ensures Shaped(date) && RealDate(Parse(date)) && 0 <= Tomorrow(Parse(date)).year <= 10000
  {
  }

  /** The days a date stands for, at the precision it is known to. */
  predicate InPeriod(day: Date, d: Date, precision: Precision) {
    && RealDate(day)
    && day.year == d.year
    && (precision == ByQuarter ==> (day.month - 1) / 3 == (d.month - 1) / 3)
    && (precision == ByDay ==> day == d)
  }

  /** The first day after a quarter or a year: the next quarter's start, or next 1 January. */
  function PeriodSuccessor(d: Date, precision: Precision): Date
    requires 1 <= d.month <= 12
  {
    if precision == ByQuarter && d.month <= 9
    then Date(d.year, QuarterEnd(d.month) + 1, 1)
    else Date(d.year + 1, 1, 1)
  }

  lemma PeriodEndIsLastDay(d: Date, precision: Precision)
    requires RealDate(d) && 100 <= d.year && precision != ByDay
    ensures Tomorrow(PeriodEnd(d, precision)) == PeriodSuccessor(d, precision)
  {
  }

  /** As strings: the day after a period ends is the period's successor. */
  lemma DayAfterPeriodEnd(date: string, precision: Precision)
    requires RealDay(date) && 1000 <= Parse(date).year && precision != ByDay
    ensures var d := Parse(date);
      && RealDate(d) && RealDate(PeriodSuccessor(d, precision))
      && DayAfter(PeriodEndDate(date, precision)) == IsoPrefix(PeriodSuccessor(d, precision))
  {
    PeriodEndIsLastDay(Parse(date), precision);
    hide IsoPrefix, Tomorrow, PeriodSuccessor, Shaped, Parse;
  }

  /** The successor is the least day later than every day of the period. */
  lemma SuccessorBoundsPeriod(d: Date, precision: Precision, v: Date)
    requires RealDate(d) && RealDate(v) && precision != ByDay && 100 <= d.year
    ensures !Earlier(v, PeriodSuccessor(d, precision))
       <==> forall day :: InPeriod(day, d, precision) ==> Earlier(day, v)
  {
    var last := PeriodEnd(d, precision);
    PeriodEndIsLastDay(d, precision);
    assert InPeriod(last, d, precision);
    if Earlier(v, PeriodSuccessor(d, precision)) {
      assert !Earlier(last, v);
    }
  }
}
