/**
 * Calendar months as integers, and the "YYYY-MM" text an HTML month input
 * produces and `formatMonth` writes.
 */
module Calendar {
  import opened Wrappers
  import opened Decimal

  /**
   * A calendar month, counted as year * 12 + (month - 1).  Adding k to a Month
   * is JavaScript's `new Date(year, monthIndex + k, 1)`, which rolls the year
   * over; Dafny's Euclidean / and % recover the year and the month.
   */
  type Month = int

  function YearOf(m: Month): int { m / 12 }

  /** The month of the year, 1 for January to 12 for December. */
  function MonthOfYear(m: Month): int { m % 12 + 1 }

  /** `new Date(year, monthIndex, 1)` with a zero-based, possibly overflowing, month index. */
  function DateOf(year: int, monthIndex: int): Month { year * 12 + monthIndex }

  lemma {:induction false} DateOfParts(year: int, monthIndex: int)
    requires 0 <= monthIndex < 12
    ensures YearOf(DateOf(year, monthIndex)) == year
    ensures MonthOfYear(DateOf(year, monthIndex)) == monthIndex + 1
  {
  }

  /** Splitting a month into its year and zero-based month index and rebuilding it gives it back. */
  lemma {:induction false} DateOfYearMonth(m: Month)
    ensures DateOf(YearOf(m), MonthOfYear(m) - 1) == m
  {
  }

  /** "YYYY-MM": the unpadded year, a dash and the two-digit month. */
  function MonthText(m: Month): string
  {
    IntToString(YearOf(m)) + "-" + PadStart2(NatToString(MonthOfYear(m)))
  }

  /** Reads a "YYYY-MM" month string (four-digit year, month 01 to 12); anything else is None. */
  function ParseMonth(s: string): (r: Option<Month>)
    ensures r.Some? ==> |s| == 7 && s[4] == '-'
  {
    if |s| == 7 && IsDigits(s[..4]) && s[4] == '-' && IsDigits(s[5..]) && 1 <= Value(s[5..]) <= 12
    then Some(DateOf(Value(s[..4]), Value(s[5..]) - 1))
    else None
  }

  /** For four-digit years, reading back the text of a month gives the month. */
  lemma {:induction false} ParseMonthText(m: Month)
    requires 1000 <= YearOf(m) <= 9999
    ensures |MonthText(m)| == 7
    ensures ParseMonth(MonthText(m)) == Some(m)
  {
    var y := NatToString(YearOf(m));
    NatToStringLength(YearOf(m), 3);
    var mm := PadStart2(NatToString(MonthOfYear(m)));
    PadStart2Month(MonthOfYear(m));
    var s := MonthText(m);
    assert s == y + "-" + mm;
    assert s[..4] == y;
    assert s[5..] == mm;
  }

  /** The text of a month is the month: distinct four-digit-year months have distinct texts. */
  lemma {:induction false} MonthTextInjective(a: Month, b: Month)
    requires 1000 <= YearOf(a) <= 9999 && 1000 <= YearOf(b) <= 9999
    ensures MonthText(a) == MonthText(b) <==> a == b
  {
    ParseMonthText(a);
    ParseMonthText(b);
  }
}
