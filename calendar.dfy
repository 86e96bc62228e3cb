/**
 * The petition generator's date handling: `formatDate` reorders the
 * browser's `YYYY-MM-DD` date-input value (the ISO 8601 calendar date in
 * extended format) as `DD.MM.YYYY`, and `calculateEndDate` moves a start
 * date one Gregorian calendar year forward and prints it the same way.
 */
module Calendar {
  import opened Text
  import opened Wrappers

  // ---------------------------------------------------------------------
  // formatDate
  // ---------------------------------------------------------------------

  /** Element `i` of a destructured array, as a template literal prints it: a missing one is `undefined`. */
  function Part(parts: seq<string>, i: nat): string
  {
    if i < |parts| then parts[i] else "undefined"
  }

  /**
   * `formatDate`: the empty string stays empty; anything else is split at
   * `-` and its first three pieces are printed day first, year last.
   */
  function FormatDate(dateStr: string): (r: string)
    ensures r == "" <==> dateStr == ""
  {
    if dateStr == "" then ""
    else
      var parts := Split(dateStr, '-');
      Part(parts, 2) + "." + Part(parts, 1) + "." + Part(parts, 0)
  }

  /** A non-empty value without a dash is taken as the year alone; day and month print as `undefined`. */
  lemma FormatDateWithoutDash(dateStr: string)
    requires dateStr != "" && '-' !in dateStr
    ensures FormatDate(dateStr) == "undefined.undefined." + dateStr
  {
    SplitFree(dateStr, '-');
  }

  /** The ISO text of a date given as its three dash-free fields. */
  function IsoText(year: string, month: string, day: string): string
  {
    year + "-" + month + "-" + day
  }

  /** For `Y-M-D` with dash-free fields the result is `D.M.Y`. */
  lemma FormatDateFields(year: string, month: string, day: string)
    requires '-' !in year && '-' !in month && '-' !in day
    ensures FormatDate(IsoText(year, month, day)) == day + "." + month + "." + year
  {
    SplitThree(year, month, day, '-');
    assert Split(IsoText(year, month, day), '-') == [year, month, day];
  }

  /** Read back a `D.M.Y` text as `Y-M-D`: the inverse of `FormatDate` on well-formed fields. */
  function UnformatDate(text: string): string
  {
    var parts := Split(text, '.');
    if |parts| == 3 then IsoText(parts[2], parts[1], parts[0]) else text
  }

  /** Formatting loses nothing: reading the result back gives the input, for fields free of `-` and `.`. */
  lemma FormatDateInvertible(year: string, month: string, day: string)
    requires '-' !in year && '-' !in month && '-' !in day
    requires '.' !in year && '.' !in month && '.' !in day
    ensures UnformatDate(FormatDate(IsoText(year, month, day))) == IsoText(year, month, day)
  {
    var text := day + "." + month + "." + year;
    FormatDateFields(year, month, day);
    SplitThree(day, month, year, '.');
    assert Split(text, '.') == [day, month, year];
  }

  lemma FormatDateExamples()
    ensures FormatDate("") == ""
    ensures FormatDate("2026-01-01") == "01.01.2026"
  {
    var y, m, d := "2026", "01", "01";
    assert '-' !in y && '-' !in m && '-' !in d;
    FormatDateFields(y, m, d);
    assert IsoText(y, m, d) == "2026-01-01";
    assert d + "." + m + "." + y == "01.01.2026";
  }

  // ---------------------------------------------------------------------
  // the Gregorian calendar
  // ---------------------------------------------------------------------

  datatype Date = Date(year: nat, month: nat, day: nat)

  predicate IsLeapYear(y: nat)
  {
    y % 4 == 0 && (y % 100 != 0 || y % 400 == 0)
  }

  function DaysInMonth(y: nat, m: nat): nat
  {
    if m == 2 then (if IsLeapYear(y) then 29 else 28)
    else if m == 4 || m == 6 || m == 9 || m == 11 then 30
    else 31
  }

  predicate ValidDate(d: Date)
  {
    1 <= d.month <= 12 && 1 <= d.day <= DaysInMonth(d.year, d.month)
  }

  /** Calendar order: by year, then month, then day. */
  predicate NotAfter(a: Date, b: Date)
  {
    a.year < b.year
    || (a.year == b.year && (a.month < b.month || (a.month == b.month && a.day <= b.day)))
  }

  /**
   * `date.setFullYear(date.getFullYear() + 1)`: keep month and day in the
   * next year; a day past the end of that month (29 February in a common
   * year) carries into the following month.
   */
  function AddOneYear(d: Date): (e: Date)
    requires ValidDate(d)
    ensures ValidDate(e) && e.year == d.year + 1
  {
    var y := d.year + 1;
    if d.day <= DaysInMonth(y, d.month) then Date(y, d.month, d.day)
    else Date(y, d.month + 1, d.day - DaysInMonth(y, d.month))
  }

  /**
   * One year on is the first real calendar date on or after the same month
   * and day of the next year.
   */
  lemma AddOneYearIsFirstDateOnOrAfter(d: Date)
    requires ValidDate(d)
    ensures NotAfter(Date(d.year + 1, d.month, d.day), AddOneYear(d))
    ensures forall x :: ValidDate(x) && NotAfter(Date(d.year + 1, d.month, d.day), x) ==> NotAfter(AddOneYear(d), x)
  {
  }

  /** Day and month are kept, except that 29 February always becomes 1 March (the next year is never a leap year). */
  lemma AddOneYearKeepsDayAndMonth(d: Date)
    requires ValidDate(d)
    ensures !(d.month == 2 && d.day == 29) ==> AddOneYear(d) == Date(d.year + 1, d.month, d.day)
    ensures d.month == 2 && d.day == 29 ==> AddOneYear(d) == Date(d.year + 1, 3, 1)
  {
    if d.month == 2 && d.day == 29 {
      LeapYearIsFollowedByCommonYear(d.year);
    }
  }

  /** The year after a leap year is a common year. */
  lemma LeapYearIsFollowedByCommonYear(y: nat)
    requires IsLeapYear(y)
    ensures !IsLeapYear(y + 1)
  {
    var k := y / 4;
    assert y == 4 * k;
    assert (y + 1) % 4 == 1;
  }

  // ---------------------------------------------------------------------
  // calculateEndDate
  // ---------------------------------------------------------------------

  /** `YYYY-MM-DD` with four year digits, two month digits and two day digits naming a real date. */
  predicate IsIsoDate(s: string)
  {
    && |s| == 10 && s[4] == '-' && s[7] == '-'
    && AllDigits(s[..4]) && AllDigits(s[5..7]) && AllDigits(s[8..])
    && ValidDate(Date(ParseDecimal(s[..4]), ParseDecimal(s[5..7]), ParseDecimal(s[8..])))
  }

  /** What `new Date(s)` reads from a date-input value, or `None` for an Invalid Date. */
  function ParseIsoDate(s: string): (d: Option<Date>)
    ensures d.Some? <==> IsIsoDate(s)
    ensures d.Some? ==> ValidDate(d.value)
  {
    if IsIsoDate(s) then Some(Date(ParseDecimal(s[..4]), ParseDecimal(s[5..7]), ParseDecimal(s[8..])))
    else None
  }

  /** Day and month zero-padded to two digits, the year as plain `String(year)`. */
  function FormatNumeric(d: Date): string
  {
    Pad2(d.day) + "." + Pad2(d.month) + "." + NatToString(d.year)
  }

  /** The printed date of a real date splits at its dots into day, month and year. */
  lemma FormatNumericFields(d: Date)
    requires ValidDate(d)
    ensures var r := FormatNumeric(d);
      && |r| >= 7 && r[2] == '.' && r[5] == '.'
      && r[..2] == Pad2(d.day) && r[3..5] == Pad2(d.month) && r[6..] == NatToString(d.year)
      && Split(r, '.') == [Pad2(d.day), Pad2(d.month), NatToString(d.year)]
  {
    var day, month, year := Pad2(d.day), Pad2(d.month), NatToString(d.year);
    Pad2Parse(d.day);
    Pad2Parse(d.month);
    assert '.' !in day && '.' !in month && '.' !in year by {
      assert AllDigits(day) && AllDigits(month) && AllDigits(year);
    }
    SplitThree(day, month, year, '.');
    var r := day + ['.'] + month + ['.'] + year;
    assert FormatNumeric(d) == r;
    assert r[..2] == day && r[3..5] == month && r[6..] == year;
  }

  /** An Invalid Date prints `NaN` for each of its fields. */
  const InvalidDateText: string := "NaN.NaN.NaN"

  /** `calculateEndDate`: the empty string stays empty; otherwise the date one year on, as `DD.MM.YYYY`. */
  function CalculateEndDate(startDateStr: string): (r: string)
    ensures r == "" <==> startDateStr == ""
    ensures startDateStr != "" && !IsIsoDate(startDateStr) ==> r == InvalidDateText
    ensures IsIsoDate(startDateStr) ==>
      && |r| >= 7 && r[2] == '.' && r[5] == '.'
      && AllDigits(r[..2]) && AllDigits(r[3..5]) && AllDigits(r[6..])
  {
    if startDateStr == "" then ""
    else
      match ParseIsoDate(startDateStr)
      case Some(d) =>
        FormatNumericFields(AddOneYear(d));
        FormatNumeric(AddOneYear(d))
      case None => InvalidDateText
  }

  /**
   * A start date other than 29 February keeps its day and month digits and
   * gets the next year's number, so the result is the start's own fields
   * reordered with the year advanced.
   */
  lemma CalculateEndDateKeepsFields(s: string)
    requires IsIsoDate(s) && !(ParseDecimal(s[5..7]) == 2 && ParseDecimal(s[8..]) == 29)
    ensures CalculateEndDate(s) == s[8..] + "." + s[5..7] + "." + NatToString(ParseDecimal(s[..4]) + 1)
  {
    var d := ParseIsoDate(s).value;
    Pad2OfTwoDigits(s[5..7]);
    Pad2OfTwoDigits(s[8..]);
    AddOneYearKeepsDayAndMonth(d);
  }

  /** A start on 29 February ends on 1 March of the next year. */
  lemma CalculateEndDateLeapDay(s: string)
    requires IsIsoDate(s) && ParseDecimal(s[5..7]) == 2 && ParseDecimal(s[8..]) == 29
    ensures CalculateEndDate(s) == "01.03." + NatToString(ParseDecimal(s[..4]) + 1)
  {
    AddOneYearKeepsDayAndMonth(ParseIsoDate(s).value);
    Pad2Parse(1);
    Pad2Parse(3);
    assert Pad2(1) == "01" && Pad2(3) == "03";
  }

  /**
   * The end date of a valid start reads back: split at its dots, its three
   * fields are the numerals of the day, month and year one calendar year on.
   */
  lemma CalculateEndDateReadsBack(s: string)
    requires IsIsoDate(s)
    ensures var e, parts := AddOneYear(ParseIsoDate(s).value), Split(CalculateEndDate(s), '.');
      && parts == [Pad2(e.day), Pad2(e.month), NatToString(e.year)]
      && |parts| == 3 && AllDigits(parts[0]) && AllDigits(parts[1]) && AllDigits(parts[2])
      && Date(ParseDecimal(parts[2]), ParseDecimal(parts[1]), ParseDecimal(parts[0])) == e
  {
    var e := AddOneYear(ParseIsoDate(s).value);
    FormatNumericFields(e);
    Pad2Parse(e.day);
    Pad2Parse(e.month);
    ParseNatToString(e.year);
  }

  /** The fields of a literal date-input value, read one by one. */
  lemma IsoFieldsOf(s: string, year: nat, month: nat, day: nat)
    requires |s| == 10 && s[4] == '-' && s[7] == '-'
    requires s[..4] == NatToString(year) && |s[5..7]| == 2 && |s[8..]| == 2
    requires AllDigits(s[5..7]) && AllDigits(s[8..])
    requires 10 * DigitValue(s[5]) + DigitValue(s[6]) == month
    requires 10 * DigitValue(s[8]) + DigitValue(s[9]) == day
    requires ValidDate(Date(year, month, day))
    ensures IsIsoDate(s) && ParseIsoDate(s) == Some(Date(year, month, day))
  {
    ParseNatToString(year);
    ParseTwoDigits(s[5..7]);
    ParseTwoDigits(s[8..]);
  }

  /** `"2025-06-15"` ends on `"15.06.2026"`. */
  lemma CalculateEndDateExample(s: string)
    requires s == "2025-06-15"
    ensures CalculateEndDate(s) == "15.06.2026"
  {
    var day, month, year := s[8..], s[5..7], NatToString(2026);
    assert day == "15" && month == "06" && year == "2026";
    assert day + "." + month + "." + year == "15.06.2026";
    assert s[..4] == NatToString(2025);
    IsoFieldsOf(s, 2025, 6, 15);
    CalculateEndDateKeepsFields(s);
  }

  /** `"2024-02-29"` ends on `"01.03.2025"`, and the empty string stays empty. */
  lemma CalculateEndDateLeapExample(s: string)
    requires s == "2024-02-29"
    ensures CalculateEndDate(s) == "01.03.2025"
    ensures CalculateEndDate("") == ""
  {
    assert s[..4] == NatToString(2024);
    IsoFieldsOf(s, 2024, 2, 29);
    CalculateEndDateLeapDay(s);
    assert NatToString(2025) == "2025";
  }
}
