/**
  * `ExpenseParser.extractDate` (expense-parser.js): recognising a date header such as
  * "Monday, 23rd June" and turning it into `YYYY-MM-DD` in a given year.
  *
  * The regular expression `^([A-Za-z]+),\s*(\d{1,2})(?:st|nd|rd|th)?\s+([A-Za-z]+)$` is modelled
  * twice: declaratively, as the decompositions `HeaderText` of well-formed `HeaderParts`, and as
  * the scanner `MatchHeader`; the two agree (`MatchHeader`'s contract and `MatchHeaderComplete`).
  */
module DateHeaders {
  import opened Wrappers
  import opened Text
  import opened Calendar

  /** The pieces of a header line, in order. */
  datatype HeaderParts = HeaderParts(
    weekday: string,   // `[A-Za-z]+`, captured but never checked
    gap: string,       // `\s*` after the comma
    day: string,       // `\d{1,2}`
    suffix: string,    // `(?:st|nd|rd|th)?`, never checked against the day
    space: string,     // `\s+`
    month: string)     // `[A-Za-z]+`

  /** `(?:st|nd|rd|th)` */
  predicate IsOrdinalSuffix(s: string) {
    s == "st" || s == "nd" || s == "rd" || s == "th"
  }

  /** `[A-Za-z]+` */
  predicate IsWord(s: string) {
    |s| >= 1 && All(s, IsAsciiLetter)
  }

  /** The pieces are what the regular expression's parts accept. */
  predicate WellFormed(h: HeaderParts) {
    && IsWord(h.weekday)
    && All(h.gap, IsSpace)
    && 1 <= |h.day| <= 2 && All(h.day, IsDigit)
    && (h.suffix == "" || IsOrdinalSuffix(h.suffix))
    && |h.space| >= 1 && All(h.space, IsSpace)
    && IsWord(h.month)
  }

  /** The line the pieces spell. */
  function HeaderText(h: HeaderParts): string {
    h.weekday + "," + h.gap + h.day + h.suffix + h.space + h.month
  }

  /** The scanner's last stage, after the day digits: `(?:st|nd|rd|th)?\s+([A-Za-z]+)$`. */
  function MatchAfterDay(t: string): (r: Option<(string, string, string)>)
    ensures r.Some? ==> (r.value.0 == "" || IsOrdinalSuffix(r.value.0))
    ensures r.Some? ==> |r.value.1| >= 1 && All(r.value.1, IsSpace) && IsWord(r.value.2)
    ensures r.Some? ==> t == r.value.0 + r.value.1 + r.value.2
  {
    var sl := if |t| >= 2 && IsOrdinalSuffix(t[..2]) then 2 else 0;
    var afterSuffix := t[sl..];
    var w := LeadingCount(afterSuffix, IsSpace);
    var month := afterSuffix[w..];
    if w == 0 || month == [] || !All(month, IsAsciiLetter) then None
    else
      SliceThree(t, sl, w);
      Some((t[..sl], afterSuffix[..w], month))
  }

  /** The stage after the comma: `\s*(\d{1,2})` and then `MatchAfterDay`. */
  function MatchAfterComma(t: string): (r: Option<(string, string, (string, string, string))>)
    ensures r.Some? ==> All(r.value.0, IsSpace) && 1 <= |r.value.1| <= 2 && All(r.value.1, IsDigit)
    ensures r.Some? ==> (r.value.2.0 == "" || IsOrdinalSuffix(r.value.2.0))
    ensures r.Some? ==> |r.value.2.1| >= 1 && All(r.value.2.1, IsSpace) && IsWord(r.value.2.2)
    ensures r.Some? ==> t == r.value.0 + r.value.1 + (r.value.2.0 + r.value.2.1 + r.value.2.2)
  {
    var g := LeadingCount(t, IsSpace);
    var fromDay := t[g..];
    var k := LeadingCount(fromDay, IsDigit);
    if k == 0 || k > 2 then None
    else
      match MatchAfterDay(fromDay[k..])
      case None => None
      case Some(rest) =>
        SliceThree(t, g, k);
        Some((t[..g], fromDay[..k], rest))
  }

  /** The regular expression as a left-to-right scanner: its match, or `None`. */
  function MatchHeader(line: string): (r: Option<HeaderParts>)
    ensures r.Some? ==> WellFormed(r.value) && HeaderText(r.value) == line
  {
    var n := LeadingCount(line, IsAsciiLetter);
    if n == 0 || n == |line| || line[n] != ',' then None
    else
      var afterComma := line[n + 1..];
      assert line == line[..n] + "," + afterComma;
      match MatchAfterComma(afterComma)
      case None => None
      case Some((gap, day, (suffix, space, month))) =>
        var h := HeaderParts(line[..n], gap, day, suffix, space, month);
        HeaderTextAssociates(h);
        Some(h)
  }

  /** `HeaderText` regrouped as the scanner consumes it. */
  lemma HeaderTextAssociates(h: HeaderParts)
    ensures HeaderText(h) == h.weekday + "," + (h.gap + h.day + (h.suffix + h.space + h.month))
  {
  }

  lemma MatchAfterDayComplete(suffix: string, space: string, month: string)
    requires suffix == "" || IsOrdinalSuffix(suffix)
    requires |space| >= 1 && All(space, IsSpace) && IsWord(month)
    ensures MatchAfterDay(suffix + space + month) == Some((suffix, space, month))
  {
    var t := suffix + space + month;
    var afterSuffix := space + month;
    SuffixSkipped(suffix, space, month);
    assert !IsSpace(month[0]) by { assert IsAsciiLetter(month[0]); }
    LeadingCountOf(space, month, IsSpace);
    assert afterSuffix[|space|..] == month;
    assert afterSuffix[..|space|] == space;
  }

  /** The optional suffix is taken exactly when it is there. */
  lemma SuffixSkipped(suffix: string, space: string, month: string)
    requires suffix == "" || IsOrdinalSuffix(suffix)
    requires |space| >= 1 && All(space, IsSpace)
    ensures var t := suffix + space + month;
      && (if |t| >= 2 && IsOrdinalSuffix(t[..2]) then 2 else 0) == |suffix|
      && t[..|suffix|] == suffix && t[|suffix|..] == space + month
  {
    var t := suffix + space + month;
    if suffix == "" {
      assert t == space + month;
      assert IsSpace(t[0]);
    } else {
      assert t[..2] == suffix;
      assert t[2..] == space + month;
    }
  }

  lemma MatchAfterCommaComplete(gap: string, day: string, suffix: string, space: string, month: string)
    requires All(gap, IsSpace) && 1 <= |day| <= 2 && All(day, IsDigit)
    requires suffix == "" || IsOrdinalSuffix(suffix)
    requires |space| >= 1 && All(space, IsSpace) && IsWord(month)
    ensures MatchAfterComma(gap + day + (suffix + space + month)) == Some((gap, day, (suffix, space, month)))
  {
    var afterDay := suffix + space + month;
    var fromDay := day + afterDay;
    var t := gap + fromDay;
    assert gap + day + afterDay == t;
    assert !IsSpace(fromDay[0]) by { assert fromDay[0] == day[0]; }
    LeadingCountOf(gap, fromDay, IsSpace);
    assert t[|gap|..] == fromDay;
    assert !IsDigit(afterDay[0]) by {
      if suffix == "" { assert afterDay[0] == space[0]; } else { assert afterDay[0] == suffix[0]; }
    }
    LeadingCountOf(day, afterDay, IsDigit);
    assert fromDay[|day|..] == afterDay;
    assert fromDay[..|day|] == day;
    assert t[..|gap|] == gap;
    MatchAfterDayComplete(suffix, space, month);
  }

  /** The scanner finds every match of the regular expression, with the same captures. */
  lemma MatchHeaderComplete(h: HeaderParts)
    requires WellFormed(h)
    ensures MatchHeader(HeaderText(h)) == Some(h)
  {
    var afterComma := h.gap + h.day + (h.suffix + h.space + h.month);
    HeaderTextAssociates(h);
    AppendAssociates(h.weekday, ",", afterComma);
    LeadingCountOf(h.weekday, "," + afterComma, IsAsciiLetter);
    SlicesAround(h.weekday, ',', afterComma);
    MatchAfterCommaComplete(h.gap, h.day, h.suffix, h.space, h.month);
  }

  /**
    * `extractDate(line)` with `currentYear` as a parameter: the ISO text of the header's date,
    * or `None` when the line is not a header, the month word names no month, or the day does
    * not exist in that month of that year.
    */
  function ExtractDate(line: string, year: nat): (r: Option<string>)
    requires 1000 <= year <= 9999
    ensures r.Some? ==> MatchHeader(line).Some?
    ensures r.Some? ==> IsIsoDateText(r.value) && IsoYear(r.value) == year
    ensures r.Some? ==> IsValidDate(year, IsoMonth(r.value), IsoDay(r.value))
    ensures r.Some? ==> IsoDay(r.value) == DigitsValue(MatchHeader(line).value.day)
    ensures r.Some? ==> MonthIndex(MatchHeader(line).value.month) == Some(IsoMonth(r.value))
  {
    match MatchHeader(line)
    case None => None
    case Some(h) =>
      var day := DigitsValue(h.day);
      match MonthIndex(h.month)
      case None => None
      case Some(m) => if IsValidDate(year, m, day) then Some(IsoDate(year, m, day)) else None
  }

  /** A well-formed header yields a date exactly when its day exists in the month it names. */
  lemma ExtractDateOfHeader(h: HeaderParts, year: nat)
    requires 1000 <= year <= 9999 && WellFormed(h)
    ensures ExtractDate(HeaderText(h), year).Some? <==>
              MonthIndex(h.month).Some? && IsValidDate(year, MonthIndex(h.month).value, DigitsValue(h.day))
    ensures ExtractDate(HeaderText(h), year).Some? ==>
              ExtractDate(HeaderText(h), year).value
                == IsoDate(year, MonthIndex(h.month).value, DigitsValue(h.day))
  {
    MatchHeaderComplete(h);
  }

  /** The weekday word is never checked: any other word gives the same result. */
  lemma WeekdayIgnored(h: HeaderParts, weekday: string, year: nat)
    requires 1000 <= year <= 9999 && WellFormed(h) && IsWord(weekday)
    ensures ExtractDate(HeaderText(h.(weekday := weekday)), year) == ExtractDate(HeaderText(h), year)
  {
    MatchHeaderComplete(h);
    MatchHeaderComplete(h.(weekday := weekday));
  }

  /** The ordinal suffix is optional and never checked against the day ("1th" is accepted). */
  lemma SuffixIgnored(h: HeaderParts, suffix: string, year: nat)
    requires 1000 <= year <= 9999 && WellFormed(h) && (suffix == "" || IsOrdinalSuffix(suffix))
    ensures ExtractDate(HeaderText(h.(suffix := suffix)), year) == ExtractDate(HeaderText(h), year)
  {
    MatchHeaderComplete(h);
    MatchHeaderComplete(h.(suffix := suffix));
  }

  /** "Monday, 23rd June" in 2024 is "2024-06-23". */
  lemma ExtractDateJune()
    ensures ExtractDate("Monday, 23rd June", 2024) == Some("2024-06-23")
  {
    MatchJune();
    JuneExample();
    DigitsValueTwo("23");
    IsoDateExample();
  }

  lemma MatchJune()
    ensures MatchHeader("Monday, 23rd June") == Some(HeaderParts("Monday", " ", "23", "rd", " ", "June"))
  {
    var h := HeaderParts("Monday", " ", "23", "rd", " ", "June");
    assert HeaderText(h) == "Monday, 23rd June";
    MatchHeaderComplete(h);
  }

  lemma IsoDateExample()
    ensures IsoDate(2024, 6, 23) == "2024-06-23"
  {
    YearPadded();
    DayAndMonthPadded();
  }

  lemma YearPadded()
    ensures PadNumber(2024, 4) == "2024"
  {
    assert NatToString(2) == "2";
    assert NatToString(20) == "20";
    assert NatToString(202) == "202";
    assert NatToString(2024) == "2024";
  }

  lemma DayAndMonthPadded()
    ensures PadNumber(6, 2) == "06" && PadNumber(23, 2) == "23"
  {
    assert NatToString(6) == "6";
    assert NatToString(2) == "2";
    assert NatToString(23) == "23";
  }

  /** "30th February" names no date, in a leap year too. */
  lemma ExtractDateFebruary()
    ensures ExtractDate("Friday, 30th February", 2024) == None
  {
    MatchFebruary();
    FebruaryExample();
    DigitsValueTwo("30");
  }

  lemma FebruaryExample()
    ensures MonthIndex("February") == Some(2)
  {
    assert Lower("February")[..3] == "feb";
    MonthByAbbreviation("February", 1);
  }

  lemma MatchFebruary()
    ensures MatchHeader("Friday, 30th February") == Some(HeaderParts("Friday", " ", "30", "th", " ", "February"))
  {
    var h := HeaderParts("Friday", " ", "30", "th", " ", "February");
    assert HeaderText(h) == "Friday, 30th February";
    MatchHeaderComplete(h);
  }

  /** "32nd June" names no date. */
  lemma ExtractDateLateJune()
    ensures ExtractDate("Monday, 32nd June", 2024) == None
  {
    MatchLateJune();
    JuneExample();
    DigitsValueTwo("32");
  }

  lemma MatchLateJune()
    ensures MatchHeader("Monday, 32nd June") == Some(HeaderParts("Monday", " ", "32", "nd", " ", "June"))
  {
    var h := HeaderParts("Monday", " ", "32", "nd", " ", "June");
    assert HeaderText(h) == "Monday, 32nd June";
    MatchHeaderComplete(h);
  }
}
