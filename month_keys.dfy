/** Calendar dates, the year-month of a date, and its "yyyy-MM" key (java.time.LocalDate, YearMonth). */
module MonthKeys {
  import opened Errors
  import opened Text

  /** Years with a four-digit "yyyy" rendering. */
  type Year = y: int | 1 <= y <= 9999 witness 1
  type MonthOfYear = m: int | 1 <= m <= 12 witness 1
  type DayOfMonth = d: int | 1 <= d <= 31 witness 1

  /** A transaction date (LocalDate). */
  datatype Date = Date(year: Year, month: MonthOfYear, day: DayOfMonth)

  /** `a.isAfter(b)`: `a` comes later in the calendar than `b`. */
  predicate IsAfter(a: Date, b: Date) {
    || a.year > b.year
    || (a.year == b.year && a.month > b.month)
    || (a.year == b.year && a.month == b.month && a.day > b.day)
  }

  /** A day count that increases with the calendar (31 slots per month). */
  function DayIndex(d: Date): int {
    (d.year * 12 + d.month - 1) * 31 + d.day - 1
  }

  /** `isAfter` is the calendar order: it compares the days' positions on one time line. */
  lemma IsAfterByIndex(a: Date, b: Date)
    ensures IsAfter(a, b) <==> DayIndex(a) > DayIndex(b)
    ensures DayIndex(a) == DayIndex(b) <==> a == b
  {
    var ia, ib := a.year * 12 + a.month - 1, b.year * 12 + b.month - 1;
    assert a.year < b.year ==> ia < ib;
    assert a.year > b.year ==> ia > ib;
    assert ia < ib ==> DayIndex(a) < DayIndex(b);
    assert ia > ib ==> DayIndex(a) > DayIndex(b);
  }

  /** `isAfter` is a strict total order on dates. */
  lemma IsAfterIsStrictTotalOrder(a: Date, b: Date, c: Date)
    ensures !IsAfter(a, a)
    ensures IsAfter(a, b) && IsAfter(b, c) ==> IsAfter(a, c)
    ensures a == b || IsAfter(a, b) || IsAfter(b, a)
    ensures !(IsAfter(a, b) && IsAfter(b, a))
  {
    IsAfterByIndex(a, b);
    IsAfterByIndex(b, c);
    IsAfterByIndex(a, c);
  }

  /** A calendar month with its year (YearMonth): the bucket a transaction falls in. */
  datatype YearMonth = YearMonth(year: Year, month: MonthOfYear)

  /** The position of a month on the time line. */
  function MonthIndex(ym: YearMonth): int {
    ym.year * 12 + ym.month - 1
  }

  /** The month a date falls in: the 31-day block of the day line that holds the date. */
  function MonthOf(d: Date): (ym: YearMonth)
    ensures ym.year == d.year && ym.month == d.month
    ensures MonthIndex(ym) == DayIndex(d) / 31
  {
    var ym := YearMonth(d.year, d.month);
    assert DayIndex(d) == MonthIndex(ym) * 31 + (d.day - 1);
    ym
  }

  /** Chronological order of months: earlier year first, then earlier month. */
  predicate Precedes(a: YearMonth, b: YearMonth) {
    a.year < b.year || (a.year == b.year && a.month < b.month)
  }

  /** The chronological order is the order of positions, and a position names one month. */
  lemma PrecedesByIndex(a: YearMonth, b: YearMonth)
    ensures Precedes(a, b) <==> MonthIndex(a) < MonthIndex(b)
    ensures MonthIndex(a) == MonthIndex(b) <==> a == b
  {
    assert a.year < b.year ==> MonthIndex(a) < MonthIndex(b);
    assert a.year > b.year ==> MonthIndex(a) > MonthIndex(b);
  }

  /** A later date never falls in an earlier month, and an earlier month holds only earlier dates. */
  lemma MonthOfIsMonotone(a: Date, b: Date)
    ensures IsAfter(a, b) ==> !Precedes(MonthOf(a), MonthOf(b))
    ensures Precedes(MonthOf(a), MonthOf(b)) ==> IsAfter(b, a)
  {
  }

  /** Month keys are totally ordered: comparable, irreflexive, transitive. */
  lemma PrecedesIsStrictTotalOrder(a: YearMonth, b: YearMonth, c: YearMonth)
    ensures !Precedes(a, a)
    ensures Precedes(a, b) && Precedes(b, c) ==> Precedes(a, c)
    ensures a == b || Precedes(a, b) || Precedes(b, a)
    ensures !(Precedes(a, b) && Precedes(b, a))
  {
    PrecedesByIndex(a, b);
    PrecedesByIndex(b, c);
    PrecedesByIndex(a, c);
  }

  /** `date.format(DateTimeFormatter.ofPattern("yyyy-MM"))`: four-digit year, dash, two-digit month. */
  function FormatMonthKey(ym: YearMonth): (s: string)
    ensures |s| == 7 && s[4] == '-'
    ensures forall i :: 0 <= i < 7 && i != 4 ==> IsDigit(s[i])
  {
    [ Digit(ym.year / 1000), Digit(ym.year / 100 % 10), Digit(ym.year / 10 % 10), Digit(ym.year % 10),
      '-', Digit(ym.month / 10), Digit(ym.month % 10) ]
  }

  /** The month key of a transaction date. */
  function MonthKey(d: Date): string {
    FormatMonthKey(MonthOf(d))
  }

  /** A date's key parses back to the date's month, and two dates share a key exactly when they
      fall in the same month. */
  lemma MonthKeyNamesMonth(a: Date, b: Date)
    ensures ParseMonthKey(MonthKey(a)) == Some(MonthOf(a))
    ensures MonthKey(a) == MonthKey(b) <==> MonthOf(a) == MonthOf(b)
  {
    ParseFormat(MonthOf(a));
    FormatInjective(MonthOf(a), MonthOf(b));
  }

  /** Holds when `s` has the shape "dddd-dd". */
  predicate IsKeyShaped(s: string) {
    |s| == 7 && s[4] == '-' && forall i :: 0 <= i < 7 && i != 4 ==> IsDigit(s[i])
  }

  /** `YearMonth.parse(s)` on the "yyyy-MM" shape; None where the parse would throw. */
  function ParseMonthKey(s: string): (r: Option<YearMonth>)
    ensures r.Some? ==> IsKeyShaped(s)
  {
    if IsKeyShaped(s) then
      var y := DigitValue(s[0]) * 1000 + DigitValue(s[1]) * 100 + DigitValue(s[2]) * 10 + DigitValue(s[3]);
      var m := DigitValue(s[5]) * 10 + DigitValue(s[6]);
      if 1 <= y && 1 <= m <= 12 then Some(YearMonth(y, m)) else None
    else None
  }

  /** A number below 10000 is the sum of its four decimal digits times their place values. */
  lemma FourDigits(y: int)
    requires 0 <= y <= 9999
    ensures y / 1000 * 1000 + y / 100 % 10 * 100 + y / 10 % 10 * 10 + y % 10 == y
  {
  }

  /** Parsing a formatted key gives back the month it was made from. */
  lemma ParseFormat(ym: YearMonth)
    ensures ParseMonthKey(FormatMonthKey(ym)) == Some(ym)
  {
    var s := FormatMonthKey(ym);
    var y: int := ym.year;
    var a, b, c, d := y / 1000, y / 100 % 10, y / 10 % 10, y % 10;
    assert DigitValue(s[0]) == a;
    assert DigitValue(s[1]) == b;
    assert DigitValue(s[2]) == c;
    assert DigitValue(s[3]) == d;
    FourDigits(y);
    assert a * 1000 + b * 100 + c * 10 + d == y;
    var m: int := ym.month;
    assert DigitValue(s[5]) == m / 10 && DigitValue(s[6]) == m % 10;
    assert DigitValue(s[5]) * 10 + DigitValue(s[6]) == m;
  }

  lemma DivModTen(y: int, q: int, r: int)
    requires 0 <= r < 10 && y == q * 10 + r
    ensures y / 10 == q && y % 10 == r
  {
  }

  lemma DivModHundred(y: int, q: int, r: int)
    requires 0 <= r < 100 && y == q * 100 + r
    ensures y / 100 == q && y % 100 == r
  {
  }

  lemma DivModThousand(y: int, q: int, r: int)
    requires 0 <= r < 1000 && y == q * 1000 + r
    ensures y / 1000 == q && y % 1000 == r
  {
  }

  /** A key that parses is the formatted form of what it parses to: no other spelling is accepted. */
  lemma FormatParse(s: string)
    requires ParseMonthKey(s).Some?
    ensures FormatMonthKey(ParseMonthKey(s).value) == s
  {
    var ym := ParseMonthKey(s).value;
    var d0, d1, d2, d3 := DigitValue(s[0]), DigitValue(s[1]), DigitValue(s[2]), DigitValue(s[3]);
    var y: int := ym.year;
    assert y == d0 * 1000 + d1 * 100 + d2 * 10 + d3;
    DivModThousand(y, d0, d1 * 100 + d2 * 10 + d3);
    DivModHundred(y, d0 * 10 + d1, d2 * 10 + d3);
    DivModTen(d0 * 10 + d1, d0, d1);
    DivModTen(y, d0 * 100 + d1 * 10 + d2, d3);
    DivModTen(d0 * 100 + d1 * 10 + d2, d0 * 10 + d1, d2);
    var m5, m6 := DigitValue(s[5]), DigitValue(s[6]);
    DivModTen(ym.month, m5, m6);
    var t := FormatMonthKey(ym);
    assert t[0] == s[0] && t[1] == s[1] && t[2] == s[2] && t[3] == s[3];
    assert t[5] == s[5] && t[6] == s[6];
    assert t == s;
  }

  /** Different months get different keys, so months of different years are never merged. */
  lemma FormatInjective(a: YearMonth, b: YearMonth)
    ensures FormatMonthKey(a) == FormatMonthKey(b) <==> a == b
  {
    ParseFormat(a);
    ParseFormat(b);
  }

  /** `Month.getDisplayName(TextStyle.FULL, Locale.ENGLISH)`. */
  function MonthName(m: MonthOfYear): (name: string)
    ensures |name| >= 3
  {
    match m
    case 1 => "January"
    case 2 => "February"
    case 3 => "March"
    case 4 => "April"
    case 5 => "May"
    case 6 => "June"
    case 7 => "July"
    case 8 => "August"
    case 9 => "September"
    case 10 => "October"
    case 11 => "November"
    case 12 => "December"
  }

  /** Each month has its own name. */
  lemma MonthNameInjective(a: MonthOfYear, b: MonthOfYear)
    ensures MonthName(a) == MonthName(b) <==> a == b
  {
  }

  /** The key of July 2025 and its display name. */
  lemma JulyExample()
    ensures FormatMonthKey(YearMonth(2025, 7)) == "2025-07"
    ensures ParseMonthKey("2025-07") == Some(YearMonth(2025, 7))
    ensures MonthName(7) == "July"
  {
    ParseFormat(YearMonth(2025, 7));
  }
}
