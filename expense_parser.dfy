/**
  * `ExpenseParser.parseKeepNotes` and `ExpenseParser.validateExpenses` (expense-parser.js): the
  * line-by-line fold over a pasted note, which carries the date of the last header and collects
  * one record per parsable bullet line, and the read-only completeness check of records.
  *
  * Both are loops in the source and methods here, each proved against a function over the
  * prefix of its input that the loop has consumed (`ParseLines`, `AllErrors`); the lemmas state
  * what those functions promise.
  */
module ExpenseParser {
  import opened Wrappers
  import opened Text
  import opened Calendar
  import opened DateHeaders
  import opened ExpenseLines

  // ---------------------------------------------------------------------------------------
  // The fold over the lines of a note

  /** `keepText.trim().split('\n')` */
  function Lines(keepText: string): (lines: seq<string>)
    ensures |lines| >= 1
    ensures Join(lines, "\n") == Trim(keepText)
    ensures forall i :: 0 <= i < |lines| ==> '\n' !in lines[i]
  {
    JoinSplit(Trim(keepText), '\n');
    Split(Trim(keepText), '\n')
  }

  /** How the loop treats one line, decided in the source's order of tests. */
  datatype LineKind =
    | Blank                 // empty once trimmed: skipped
    | Header(date: string)  // a date header: sets `currentDate`
    | Bullet(text: string, parsed: Option<Expense>)  // starts with a bullet; its record, not yet dated
    | Other                 // anything else: ignored

  /** The kind of a raw line, with `currentYear` as a parameter. */
  function Classify(raw: string, year: nat): (k: LineKind)
    requires 1000 <= year <= 9999
    ensures k.Header? ==> IsIsoDateText(k.date) && IsoYear(k.date) == year
    ensures k.Header? ==> ExtractDate(Trim(raw), year) == Some(k.date)
    ensures k.Bullet? ==> k.text == Trim(raw) && |k.text| >= 1 && IsBullet(k.text[0])
    ensures k.Bullet? ==> k.parsed == ParseExpenseLine(k.text, None)
    ensures k.Bullet? && k.parsed.Some? ==> IsRecord(k.parsed.value)
    ensures k.Blank? <==> Trim(raw) == ""
  {
    var line := Trim(raw);
    if line == "" then Blank
    else
      match ExtractDate(line, year)
      case Some(d) => Header(d)
      case None => if IsBullet(line[0]) then Bullet(line, ParseExpenseLine(line, None)) else Other
  }

  /** What `parseExpenseLine` guarantees of every record it returns. */
  predicate IsRecord(e: Expense) {
    |e.title| >= 1 && e.amount.Some? && |e.modes| >= 1 && e.tag.None?
  }

  /** `parseExpenseLine` copies the date it is given into the record and uses it for nothing else. */
  lemma DatePassesThrough(line: string, date: Option<string>)
    ensures ParseExpenseLine(line, date).Some? <==> ParseExpenseLine(line, None).Some?
    ensures ParseExpenseLine(line, date).Some? ==>
              ParseExpenseLine(line, date).value == ParseExpenseLine(line, None).value.(date := date)
  {
  }

  /** The kinds of the lines, in order. */
  function Kinds(lines: seq<string>, year: nat): (kinds: seq<LineKind>)
    requires 1000 <= year <= 9999
    ensures |kinds| == |lines| && forall i :: 0 <= i < |lines| ==> kinds[i] == Classify(lines[i], year)
  {
    seq(|lines|, i requires 0 <= i < |lines| => Classify(lines[i], year))
  }

  /** `currentDate` after the loop has read lines of these kinds: the last header's date, or `None` (`null`). */
  function DateAfter(kinds: seq<LineKind>): (date: Option<string>)
    ensures date.Some? ==> exists i :: 0 <= i < |kinds| && kinds[i].Header? && kinds[i].date == date.value
    decreases |kinds|
  {
    if |kinds| == 0 then None
    else if kinds[|kinds| - 1].Header? then Some(kinds[|kinds| - 1].date)
    else
      var init := kinds[..|kinds| - 1];
      assert forall i :: 0 <= i < |init| ==> init[i] == kinds[i];
      DateAfter(init)
  }

  /** The record a line of kind `k` contributes, dated with the date in force before it. */
  function LineRecord(k: LineKind, date: Option<string>): (r: Option<Expense>)
    ensures r.Some? <==> k.Bullet? && k.parsed.Some?
    ensures r.Some? ==> r.value == k.parsed.value.(date := date)
  {
    if k.Bullet? && k.parsed.Some? then Some(k.parsed.value.(date := date)) else None
  }

  /** The records the loop has collected after reading lines of these kinds. */
  function ParseLines(kinds: seq<LineKind>): (records: seq<Expense>)
    ensures |records| <= BulletCount(kinds)
    decreases |kinds|
  {
    if |kinds| == 0 then []
    else
      var init := kinds[..|kinds| - 1];
      match LineRecord(kinds[|kinds| - 1], DateAfter(init))
      case None => ParseLines(init)
      case Some(e) => ParseLines(init) + [e]
  }

  /**
    * `parseKeepNotes(keepText)` with `currentYear` as a parameter: the records of the note's
    * bullet lines, in order, each dated by the last header above it.
    */
  method ParseKeepNotes(keepText: string, year: nat) returns (expenses: seq<Expense>)
    requires 1000 <= year <= 9999
    ensures expenses == ParseLines(Kinds(Lines(keepText), year))
  {
    var lines := Lines(keepText);
    ghost var kinds := Kinds(lines, year);
    expenses := [];
    var currentDate: Option<string> := None;
    for i := 0 to |lines|
      invariant expenses == ParseLines(kinds[..i])
      invariant currentDate == DateAfter(kinds[..i])
    {
      ParseLinesStep(kinds, i);
      assert kinds[i] == Classify(lines[i], year);
      expenses, currentDate := ReadLine(lines[i], year, expenses, currentDate);
    }
    WholeSlice(kinds);
  }

  /**
    * The body of the loop for one raw line: a blank line is skipped, a header moves the date
    * on, and a bullet line adds its record, if it parses, dated with the current date.
    */
  method ReadLine(raw: string, year: nat, expenses: seq<Expense>, currentDate: Option<string>)
    returns (expenses': seq<Expense>, currentDate': Option<string>)
    requires 1000 <= year <= 9999
    ensures var k := Classify(raw, year);
      && expenses' == expenses + (if k.Bullet? && k.parsed.Some? then [k.parsed.value.(date := currentDate)] else [])
      && currentDate' == if k.Header? then Some(k.date) else currentDate
  {
    expenses', currentDate' := expenses, currentDate;
    var line := Trim(raw);
    if line == "" {
      ClassifyBlank(raw, year);
      return;
    }
    var dateMatch := ExtractDate(line, year);
    if dateMatch.Some? {
      ClassifyHeader(raw, year);
      currentDate' := dateMatch;
      return;
    }
    if IsBullet(line[0]) {
      ClassifyBullet(raw, year);
      var expense := ParseExpenseLine(line, currentDate);
      DatePassesThrough(line, currentDate);
      if expense.Some? {
        expenses' := expenses + [expense.value];
      }
    } else {
      ClassifyOther(raw, year);
    }
  }

  lemma ClassifyBlank(raw: string, year: nat)
    requires 1000 <= year <= 9999 && Trim(raw) == ""
    ensures Classify(raw, year) == Blank
  {
  }

  lemma ClassifyHeader(raw: string, year: nat)
    requires 1000 <= year <= 9999 && Trim(raw) != "" && ExtractDate(Trim(raw), year).Some?
    ensures Classify(raw, year) == Header(ExtractDate(Trim(raw), year).value)
  {
  }

  lemma ClassifyBullet(raw: string, year: nat)
    requires 1000 <= year <= 9999 && Trim(raw) != "" && ExtractDate(Trim(raw), year).None?
    requires IsBullet(Trim(raw)[0])
    ensures Classify(raw, year) == Bullet(Trim(raw), ParseExpenseLine(Trim(raw), None))
  {
  }

  lemma ClassifyOther(raw: string, year: nat)
    requires 1000 <= year <= 9999 && Trim(raw) != "" && ExtractDate(Trim(raw), year).None?
    requires !IsBullet(Trim(raw)[0])
    ensures Classify(raw, year) == Other
  {
  }

  /** Reading one more line adds its record, if any, and moves the date on at a header. */
  lemma ParseLinesStep(kinds: seq<LineKind>, i: nat)
    requires i < |kinds|
    ensures ParseLines(kinds[..i + 1]) ==
              ParseLines(kinds[..i]) +
              (if kinds[i].Bullet? && kinds[i].parsed.Some? then [kinds[i].parsed.value.(date := DateAfter(kinds[..i]))] else [])
    ensures DateAfter(kinds[..i + 1]) == if kinds[i].Header? then Some(kinds[i].date) else DateAfter(kinds[..i])
  {
    assert kinds[..i + 1][..i] == kinds[..i];
    assert kinds[..i + 1][i] == kinds[i];
  }

  /** The positions of the lines that contribute a record, in order. */
  function Sources(kinds: seq<LineKind>): seq<nat>
    decreases |kinds|
  {
    if |kinds| == 0 then []
    else
      var init := kinds[..|kinds| - 1];
      if LineRecord(kinds[|kinds| - 1], DateAfter(init)).Some? then Sources(init) + [|kinds| - 1]
      else Sources(init)
  }

  /**
    * Records come out in line order, each from exactly one bullet line, as `parseExpenseLine`
    * builds it, dated with the date in force above that line; and every bullet line that
    * `parseExpenseLine` accepts contributes.
    */
  lemma {:induction false} RecordsFromLines(kinds: seq<LineKind>)
    ensures |Sources(kinds)| == |ParseLines(kinds)|
    ensures forall k, m :: 0 <= k < m < |Sources(kinds)| ==> Sources(kinds)[k] < Sources(kinds)[m]
    ensures forall k :: 0 <= k < |Sources(kinds)| ==>
              && Sources(kinds)[k] < |kinds| && kinds[Sources(kinds)[k]].Bullet?
              && kinds[Sources(kinds)[k]].parsed.Some?
              && ParseLines(kinds)[k]
                   == kinds[Sources(kinds)[k]].parsed.value.(date := DateAfter(kinds[..Sources(kinds)[k]]))
    ensures forall i :: 0 <= i < |kinds| && kinds[i].Bullet? && kinds[i].parsed.Some? ==> i in Sources(kinds)
    decreases |kinds|
  {
    if |kinds| > 0 {
      var init := kinds[..|kinds| - 1];
      RecordsFromLines(init);
      forall k | 0 <= k < |Sources(init)|
        ensures kinds[..Sources(init)[k]] == init[..Sources(init)[k]]
      {
      }
      var r := LineRecord(kinds[|kinds| - 1], DateAfter(init));
      assert Sources(kinds) == Sources(init) + (if r.Some? then [|kinds| - 1] else []);
      assert ParseLines(kinds) == ParseLines(init) + (if r.Some? then [r.value] else []);
      assert kinds[..|kinds| - 1] == init;
    }
  }

  /** The number of bullet lines. */
  function BulletCount(kinds: seq<LineKind>): nat
    decreases |kinds|
  {
    if |kinds| == 0 then 0
    else BulletCount(kinds[..|kinds| - 1]) + (if kinds[|kinds| - 1].Bullet? then 1 else 0)
  }

  /** Before any header the date is `None` (`null`), and a `None` date means no header was read. */
  lemma {:induction false} NoHeaderNoDate(kinds: seq<LineKind>)
    ensures DateAfter(kinds).None? <==> forall i :: 0 <= i < |kinds| ==> !kinds[i].Header?
    decreases |kinds|
  {
    if |kinds| > 0 {
      var init := kinds[..|kinds| - 1];
      NoHeaderNoDate(init);
      assert forall i :: 0 <= i < |init| ==> init[i] == kinds[i];
    }
  }

  /** The date in force is that of the last header: headers set it, other lines leave it. */
  lemma {:induction false} LastHeaderDates(kinds: seq<LineKind>, i: nat)
    requires i < |kinds| && kinds[i].Header?
    requires forall j :: i < j < |kinds| ==> !kinds[j].Header?
    ensures DateAfter(kinds) == Some(kinds[i].date)
    decreases |kinds|
  {
    if i < |kinds| - 1 {
      var init := kinds[..|kinds| - 1];
      assert init[i] == kinds[i];
      assert forall j :: i < j < |init| ==> init[j] == kinds[j];
      LastHeaderDates(init, i);
    }
  }

  /** A date header starts with a letter, so no bullet line is a header. */
  lemma HeaderStartsWithLetter(line: string, year: nat)
    requires 1000 <= year <= 9999
    ensures ExtractDate(line, year).Some? ==> |line| >= 1 && IsAsciiLetter(line[0]) && !IsBullet(line[0])
  {
    if MatchHeader(line).Some? {
      var h := MatchHeader(line).value;
      assert line[0] == h.weekday[0];
    }
  }

  // ---------------------------------------------------------------------------------------
  // Validation

  /** `[reason]` when the check failed, nothing otherwise. */
  function Reason(failed: bool, reason: string): seq<string> {
    if failed then [reason] else []
  }

  /** The reasons `validateExpenses` gives against one record, in the order it checks them. */
  function Problems(e: Expense): (reasons: seq<string>)
    ensures |reasons| <= 4
    ensures |reasons| == 0 <==> IsComplete(e)
  {
    Reason(e.title == "", "Missing title")
    + Reason(e.amount.None?, "Invalid amount")
    + Reason(e.date.None? || e.date.value == "", "Missing date")
    + Reason(|e.modes| == 0, "Missing payment mode")
  }

  /**
    * The title, date and mode reasons are given exactly when that field is empty or absent; the
    * amount reason exactly when the amount is absent, so a zero amount passes. At most four.
    */
  lemma ProblemsNamed(e: Expense)
    ensures |Problems(e)| <= 4
    ensures "Missing title" in Problems(e) <==> e.title == ""
    ensures "Invalid amount" in Problems(e) <==> e.amount.None?
    ensures "Missing date" in Problems(e) <==> (e.date.None? || e.date.value == "")
    ensures "Missing payment mode" in Problems(e) <==> |e.modes| == 0
    ensures |Problems(e)| == 0 <==> IsComplete(e)
  {
  }

  /** `Expense <n>: `, the heading of the messages for the record at (0-based) position `index`. */
  function Heading(index: nat): string {
    "Expense " + NatToString(index + 1) + ": "
  }

  /** Each reason, under the heading. */
  function Labelled(heading: string, reasons: seq<string>): seq<string>
    decreases |reasons|
  {
    if |reasons| == 0 then []
    else Labelled(heading, reasons[..|reasons| - 1]) + [heading + reasons[|reasons| - 1]]
  }

  /** One message per reason. */
  lemma {:induction false} LabelledLength(heading: string, reasons: seq<string>)
    ensures |Labelled(heading, reasons)| == |reasons|
    decreases |reasons|
  {
    if |reasons| > 0 {
      LabelledLength(heading, reasons[..|reasons| - 1]);
    }
  }

  /** One message per reason, in the same order, each the reason under the heading. */
  lemma {:induction false} LabelledEach(heading: string, reasons: seq<string>)
    ensures |Labelled(heading, reasons)| == |reasons|
    ensures forall i :: 0 <= i < |reasons| ==> Labelled(heading, reasons)[i] == heading + reasons[i]
    decreases |reasons|
  {
    if |reasons| > 0 {
      LabelledEach(heading, reasons[..|reasons| - 1]);
    }
  }

  lemma {:induction false} LabelledAppend(heading: string, a: seq<string>, b: seq<string>)
    ensures Labelled(heading, a + b) == Labelled(heading, a) + Labelled(heading, b)
    decreases |b|
  {
    if |b| == 0 {
      assert a + b == a;
    } else {
      assert (a + b)[..|a + b| - 1] == a + b[..|b| - 1];
      LabelledAppend(heading, a, b[..|b| - 1]);
    }
  }

  /** The messages for the record at (0-based) position `index`. */
  function ExpenseErrors(e: Expense, index: nat): seq<string> {
    Labelled(Heading(index), Problems(e))
  }

  /** Every record's messages, record by record. */
  function AllErrors(expenses: seq<Expense>): (errors: seq<string>)
    ensures |errors| <= 4 * |expenses|
    decreases |expenses|
  {
    if |expenses| == 0 then []
    else
      var init := expenses[..|expenses| - 1];
      var last := expenses[|expenses| - 1];
      LabelledLength(Heading(|init|), Problems(last));
      AllErrors(init) + ExpenseErrors(last, |init|)
  }

  /** `validateExpenses(expenses)`: every message, and whether there were none; `expenses` is a value. */
  method ValidateExpenses(expenses: seq<Expense>) returns (isValid: bool, errors: seq<string>)
    ensures errors == AllErrors(expenses)
    ensures isValid <==> |errors| == 0
  {
    errors := [];
    for index := 0 to |expenses|
      invariant errors == AllErrors(expenses[..index])
    {
      assert expenses[..index + 1][..index] == expenses[..index];
      errors := CheckExpense(expenses[index], index, errors);
    }
    assert expenses[..|expenses|] == expenses;
    isValid := |errors| == 0;
  }

  /** The `forEach` callback: the four checks on one record, each appending its message. */
  method CheckExpense(expense: Expense, index: nat, errors0: seq<string>) returns (errors: seq<string>)
    ensures errors == errors0 + ExpenseErrors(expense, index)
  {
    var heading := "Expense " + NatToString(index + 1) + ": ";
    errors := errors0;
    if expense.title == "" {
      errors := errors + [heading + "Missing title"];
    }
    ghost var afterTitle := errors;
    if expense.amount.None? {
      errors := errors + [heading + "Invalid amount"];
    }
    ghost var afterAmount := errors;
    if expense.date.None? || expense.date.value == "" {
      errors := errors + [heading + "Missing date"];
    }
    ghost var afterDate := errors;
    if |expense.modes| == 0 {
      errors := errors + [heading + "Missing payment mode"];
    }
    ghost var r1, r2, r3, r4 := ProblemsInPieces(expense, index);
    ConcatAssociates(errors0, r1, r2, r3, r4);
    assert heading == Heading(index);
    assert afterTitle == errors0 + r1;
    assert afterAmount == afterTitle + r2;
    assert afterDate == afterAmount + r3;
    assert errors == afterDate + r4;
  }

  /** The messages of one record, check by check. */
  lemma ProblemsInPieces(e: Expense, index: nat) returns (r1: seq<string>, r2: seq<string>, r3: seq<string>, r4: seq<string>)
    ensures r1 == if e.title == "" then [Heading(index) + "Missing title"] else []
    ensures r2 == if e.amount.None? then [Heading(index) + "Invalid amount"] else []
    ensures r3 == if e.date.None? || e.date.value == "" then [Heading(index) + "Missing date"] else []
    ensures r4 == if |e.modes| == 0 then [Heading(index) + "Missing payment mode"] else []
    ensures ExpenseErrors(e, index) == r1 + r2 + r3 + r4
  {
    var h := Heading(index);
    ErrorsInPieces(e, index);
    r1 := Labelled(h, Reason(e.title == "", "Missing title"));
    r2 := Labelled(h, Reason(e.amount.None?, "Invalid amount"));
    r3 := Labelled(h, Reason(e.date.None? || e.date.value == "", "Missing date"));
    r4 := Labelled(h, Reason(|e.modes| == 0, "Missing payment mode"));
    LabelledReason(h, e.title == "", "Missing title");
    LabelledReason(h, e.amount.None?, "Invalid amount");
    LabelledReason(h, e.date.None? || e.date.value == "", "Missing date");
    LabelledReason(h, |e.modes| == 0, "Missing payment mode");
  }

  /** The messages of one record are those of its four checks, labelled one check at a time. */
  lemma ErrorsInPieces(e: Expense, index: nat)
    ensures ExpenseErrors(e, index) ==
              Labelled(Heading(index), Reason(e.title == "", "Missing title"))
              + Labelled(Heading(index), Reason(e.amount.None?, "Invalid amount"))
              + Labelled(Heading(index), Reason(e.date.None? || e.date.value == "", "Missing date"))
              + Labelled(Heading(index), Reason(|e.modes| == 0, "Missing payment mode"))
  {
    LabelledFour(Heading(index), Reason(e.title == "", "Missing title"), Reason(e.amount.None?, "Invalid amount"),
                 Reason(e.date.None? || e.date.value == "", "Missing date"), Reason(|e.modes| == 0, "Missing payment mode"));
  }

  /** Four groups of reasons, labelled together or one group at a time. */
  lemma LabelledFour(h: string, p1: seq<string>, p2: seq<string>, p3: seq<string>, p4: seq<string>)
    ensures Labelled(h, p1 + p2 + p3 + p4) == Labelled(h, p1) + Labelled(h, p2) + Labelled(h, p3) + Labelled(h, p4)
  {
    LabelledAppend(h, p1 + p2 + p3, p4);
    LabelledAppend(h, p1 + p2, p3);
    LabelledAppend(h, p1, p2);
  }

  /** A single reason, under the heading. */
  lemma LabelledReason(heading: string, failed: bool, reason: string)
    ensures Labelled(heading, Reason(failed, reason)) == if failed then [heading + reason] else []
  {
    if failed {
      assert Reason(failed, reason)[..0] == [];
    }
  }

  lemma ConcatAssociates<T>(a: seq<T>, b: seq<T>, c: seq<T>, d: seq<T>, e: seq<T>)
    ensures a + b + c + d + e == a + (b + c + d + e)
  {
  }

  /** A record `validateExpenses` has nothing against. */
  predicate IsComplete(e: Expense) {
    e.title != "" && e.amount.Some? && e.date.Some? && e.date.value != "" && |e.modes| >= 1
  }

  /** The check passes exactly when every record is complete. */
  lemma {:induction false} ValidIffComplete(expenses: seq<Expense>)
    ensures |AllErrors(expenses)| == 0 <==> forall k :: 0 <= k < |expenses| ==> IsComplete(expenses[k])
    decreases |expenses|
  {
    if |expenses| > 0 {
      var init := expenses[..|expenses| - 1];
      ValidIffComplete(init);
      var last := expenses[|expenses| - 1];
      assert |AllErrors(expenses)| == |AllErrors(init)| + |ExpenseErrors(last, |init|)|;
      LabelledLength(Heading(|init|), Problems(last));
      AllCompleteSplit(expenses, init);
    }
  }

  /** Every record is complete exactly when all but the last are and the last is. */
  lemma AllCompleteSplit(expenses: seq<Expense>, init: seq<Expense>)
    requires |expenses| > 0 && init == expenses[..|expenses| - 1]
    ensures (forall k :: 0 <= k < |expenses| ==> IsComplete(expenses[k])) <==>
              (forall k :: 0 <= k < |init| ==> IsComplete(init[k])) && IsComplete(expenses[|expenses| - 1])
  {
    assert forall k :: 0 <= k < |init| ==> init[k] == expenses[k];
  }

  /** Every record the parser produces has a title, an amount and a mode; only its date may be missing. */
  lemma {:induction false} ParsedRecordsLackOnlyDates(kinds: seq<LineKind>)
    requires forall i :: 0 <= i < |kinds| && kinds[i].Header? ==> kinds[i].date != ""
    requires forall i :: 0 <= i < |kinds| && kinds[i].Bullet? && kinds[i].parsed.Some? ==> IsRecord(kinds[i].parsed.value)
    ensures forall k :: 0 <= k < |ParseLines(kinds)| ==>
              Problems(ParseLines(kinds)[k]) == if ParseLines(kinds)[k].date.None? then ["Missing date"] else []
    decreases |kinds|
  {
    if |kinds| > 0 {
      var init := kinds[..|kinds| - 1];
      assert forall i :: 0 <= i < |init| ==> init[i] == kinds[i];
      ParsedRecordsLackOnlyDates(init);
      DateInForceNonEmpty(init);
    }
  }

  /** The date in force is some header's date, so it is never the empty text. */
  lemma {:induction false} DateInForceNonEmpty(kinds: seq<LineKind>)
    requires forall i :: 0 <= i < |kinds| && kinds[i].Header? ==> kinds[i].date != ""
    ensures DateAfter(kinds).Some? ==> DateAfter(kinds).value != ""
    decreases |kinds|
  {
    if |kinds| > 0 && !kinds[|kinds| - 1].Header? {
      var init := kinds[..|kinds| - 1];
      assert forall i :: 0 <= i < |init| ==> init[i] == kinds[i];
      DateInForceNonEmpty(init);
    }
  }

  /**
    * On the records `parseKeepNotes` returns, `validateExpenses` can only complain of missing
    * dates: header dates are ISO texts, and the records are what `parseExpenseLine` guarantees.
    */
  lemma ParsedNotesLackOnlyDates(keepText: string, year: nat)
    requires 1000 <= year <= 9999
    ensures forall k :: 0 <= k < |ParseLines(Kinds(Lines(keepText), year))| ==>
              var e := ParseLines(Kinds(Lines(keepText), year))[k];
              Problems(e) == if e.date.None? then ["Missing date"] else []
  {
    var kinds := Kinds(Lines(keepText), year);
    HeaderDatesNonEmpty(Lines(keepText), year);
    ParsedRecordsLackOnlyDates(kinds);
  }

  /** Header dates are `YYYY-MM-DD` texts, never empty. */
  lemma HeaderDatesNonEmpty(lines: seq<string>, year: nat)
    requires 1000 <= year <= 9999
    ensures forall i :: 0 <= i < |lines| && Kinds(lines, year)[i].Header? ==> Kinds(lines, year)[i].date != ""
  {
    var kinds := Kinds(lines, year);
    forall i | 0 <= i < |kinds| && kinds[i].Header? ensures kinds[i].date != "" {
      assert |kinds[i].date| == 10;
    }
  }
}
