/**
  * The calendar arithmetic that `moment(dateStr, 'D MMMM YYYY')`, `isValid()` and
  * `format('YYYY-MM-DD')` perform for the date headers: the English month-name table as
  * moment's lenient (non-strict) month parser reads it, the Gregorian month lengths, and the
  * ISO `YYYY-MM-DD` text of a date.
  */
module Calendar {
  import opened Wrappers
  import opened Text

  predicate IsLeapYear(y: int) {
    y % 4 == 0 && (y % 100 != 0 || y % 400 == 0)
  }

  /** The number of days in month `m` (1 = January) of year `y`, Gregorian rules. */
  function DaysInMonth(y: int, m: int): (days: nat)
    requires 1 <= m <= 12
    ensures 28 <= days <= 31
    ensures days == 31 <==> m in {1, 3, 5, 7, 8, 10, 12}
    ensures days == 30 <==> m in {4, 6, 9, 11}
    ensures m == 2 ==> (days == 29 <==> IsLeapYear(y))
  {
    if m == 2 then (if IsLeapYear(y) then 29 else 28)
    else if m in {4, 6, 9, 11} then 30
    else 31
  }

  /** Day `d` of month `m` exists in year `y`: moment reports no overflow. */
  predicate IsValidDate(y: int, m: int, d: int) {
    1 <= m <= 12 && 1 <= d <= DaysInMonth(y, m)
  }

  /** The lower-case English month abbreviations, January first. */
  const MonthAbbreviations: seq<string> :=
    ["jan", "feb", "mar", "apr", "may", "jun", "jul", "aug", "sep", "oct", "nov", "dec"]

  /** The English month names, January first, as moment's English locale spells them. */
  const MonthNames: seq<string> :=
    ["January", "February", "March", "April", "May", "June",
     "July", "August", "September", "October", "November", "December"]

  /** Case-insensitively, `word` begins with the abbreviation of month `i + 1`. */
  predicate NamesMonth(word: string, i: nat)
    requires i < 12
  {
    MonthAbbreviations[i] <= Lower(word)
  }

  /** The first month, from index `i` on, whose abbreviation begins `word`. */
  function MonthFrom(word: string, i: nat): (m: Option<int>)
    requires i <= 12
    ensures m.Some? ==> i + 1 <= m.value <= 12 && NamesMonth(word, m.value - 1)
    ensures m.Some? ==> forall j :: i <= j < m.value - 1 ==> !NamesMonth(word, j)
    ensures m.None? ==> forall j :: i <= j < 12 ==> !NamesMonth(word, j)
    decreases 12 - i
  {
    if i == 12 then None
    else if NamesMonth(word, i) then Some(i + 1)
    else MonthFrom(word, i + 1)
  }

  /**
    * The month (1 = January) a month word names under moment's non-strict `MMMM` parsing: the
    * first month whose pattern `^<full name>|^<abbreviation>` matches case-insensitively, so
    * "June", "JUNE", "Jun" and "Junebug" all name June; `None` is moment's invalid month.
    */
  function MonthIndex(word: string): (m: Option<int>)
    ensures m.Some? ==> 1 <= m.value <= 12 && NamesMonth(word, m.value - 1)
    ensures m.None? <==> forall j :: 0 <= j < 12 ==> !NamesMonth(word, j)
  {
    MonthFrom(word, 0)
  }

  /** The month read is the first that names the word: no earlier month does. */
  lemma MonthIndexFirst(word: string)
    ensures MonthIndex(word).Some? ==> forall j :: 0 <= j < MonthIndex(word).value - 1 ==> !NamesMonth(word, j)
  {
  }

  /** The position of an abbreviation in the table, or 12 for any other text. */
  function AbbreviationPosition(s: string): nat {
    if s == "jan" then 0 else if s == "feb" then 1 else if s == "mar" then 2
    else if s == "apr" then 3 else if s == "may" then 4 else if s == "jun" then 5
    else if s == "jul" then 6 else if s == "aug" then 7 else if s == "sep" then 8
    else if s == "oct" then 9 else if s == "nov" then 10 else if s == "dec" then 11
    else 12
  }

  /** No two months share an abbreviation. */
  lemma AbbreviationsDistinct()
    ensures forall a :: 0 <= a < 12 ==> AbbreviationPosition(MonthAbbreviations[a]) == a
  {
  }

  /** A word whose first three letters spell a month's abbreviation, in any case, names that month. */
  lemma MonthByAbbreviation(word: string, i: nat)
    requires i < 12 && |word| >= 3
    requires Lower(word)[..3] == MonthAbbreviations[i]
    ensures MonthIndex(word) == Some(i + 1)
  {
    assert NamesMonth(word, i);
    var m := MonthIndex(word).value;
    assert MonthAbbreviations[m - 1] == Lower(word)[..3];
    AbbreviationsDistinct();
    assert AbbreviationPosition(MonthAbbreviations[m - 1]) == m - 1;
    assert AbbreviationPosition(MonthAbbreviations[i]) == i;
  }

  lemma JuneExample()
    ensures MonthIndex("June") == Some(6)
  {
    assert Lower("June")[..3] == "jun";
    MonthByAbbreviation("June", 5);
  }

  /** `moment(...).format('YYYY-MM-DD')` of a valid date with a four-digit year. */
  function IsoDate(y: nat, m: nat, d: nat): (s: string)
    requires y <= 9999 && IsValidDate(y, m, d)
    ensures IsIsoDateText(s)
    ensures IsoYear(s) == y && IsoMonth(s) == m && IsoDay(s) == d
  {
    var s := PadNumber(y, 4) + "-" + PadNumber(m, 2) + "-" + PadNumber(d, 2);
    assert s[..4] == PadNumber(y, 4);
    assert s[5..7] == PadNumber(m, 2);
    assert s[8..] == PadNumber(d, 2);
    s
  }

  /** The shape `^\d{4}-\d{2}-\d{2}$`. */
  predicate IsIsoDateText(s: string) {
    && |s| == 10 && s[4] == '-' && s[7] == '-'
    && All(s[..4], IsDigit) && All(s[5..7], IsDigit) && All(s[8..], IsDigit)
  }

  function IsoYear(s: string): nat requires IsIsoDateText(s) { DigitsValue(s[..4]) }
  function IsoMonth(s: string): nat requires IsIsoDateText(s) { DigitsValue(s[5..7]) }
  function IsoDay(s: string): nat requires IsIsoDateText(s) { DigitsValue(s[8..]) }
}
