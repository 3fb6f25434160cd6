# Keep2Notion expense-note parser, modelled in Dafny

Keep2Notion turns a Google Keep note of daily expenses into pages of a Notion database. A note
holds date headers ("Monday, 23rd June") and bulleted expense lines
("• Lunch - 250 (UPI, Cash)").

- `ExpenseParser.parseKeepNotes` folds over the note's lines. It carries the date of the last
  header and builds one record per bullet line that `parseExpenseLine` accepts.
- `parsePaymentModes` keeps the listed modes that belong to the fixed set `validModes`. When none
  does, it falls back to the whole mode text.
- `validateExpenses` lists every missing field of every record.
- `NotionClient.formatExpenseProperties` builds the Notion page properties of a record.
- `getPropertyOptions` reads the option names of a select column of the database schema.
- `extractDatabaseId` in server.js finds the database id in a Notion URL. The upload route then
  tallies the per-record outcomes of the Notion calls.

The modules:

| module | file | models |
|---|---|---|
| `Wrappers` | wrappers.dfy | `Option` (`null`/`undefined` or a value), `Result` (a value or a thrown error) |
| `Text` | text.dfy | JavaScript whitespace, `trim()`, `split`/`join` on one character, decimal digits |
| `Calendar` | calendar.dfy | the month table, leap years, days in a month, `YYYY-MM-DD` formatting |
| `DateHeaders` | date_headers.dfy | `extractDate`: the header regular expression and the date it yields |
| `ExpenseLines` | expense_lines.dfy | `parseExpenseLine`, `parsePaymentModes`, `validModes`, the expense record |
| `ExpenseParser` | expense_parser.dfy | `parseKeepNotes` (a loop) and `validateExpenses` (a loop) |
| `NotionClient` | notion_client.dfy | `formatExpenseProperties` (a map filled key by key), `getPropertyOptions` |
| `Server` | server.dfy | `extractDatabaseId`, and the `/api/upload-expenses` result and count loop |

## How the model is built

- The two regular expressions of expense-parser.js become left-to-right scanners over
  `seq<char>`. Each scanner has a completeness lemma against a declarative description of the
  text it accepts.
  - For the header, the description is `HeaderParts` with `HeaderText`.
  - For the expense line after its title, it is `Tail` with `TailText`.
- The lazy title group `(.+?)` is the shortest non-empty prefix, free of line terminators,
  after which the tail matches (`ShortestTitle`).
- The year the clock would give is a parameter.
- moment's `D MMMM YYYY` parse is a month table plus a days-in-month check.
  - moment reads a month leniently: the first month whose full name or three-letter
    abbreviation starts the word, ignoring case, so "Junk" reads as June.
  - The model follows that code. A strict reading that accepts only a month's full name would
    reject "Junk".
- Amounts are integer hundredths (cents), negative unless the token starts with `+`.
- The two source loops are methods, each proved against a function over the lines or records
  already consumed.
  - `ParseKeepNotes` uses `ReadLine` and is proved against `ParseLines`.
  - `ValidateExpenses` uses `CheckExpense` and is proved against `AllErrors`.
- The upload loop `UploadEach` takes the outcome of `addExpense` for the i-th record as
  `outcome(i)`.

## Model

| member | source | states |
|---|---|---|
| `ExpenseLines.ValidModeShape` | expense-parser.js:6 | each valid mode is non-empty, has no `,` or `)`, and survives trimming, alone or after the space of ", " |
| `ExpenseLines.Recognised` | expense-parser.js:95-97 | the kept tokens are valid modes, no more than there were tokens, and none is kept exactly when no trimmed token is a valid mode |
| `ExpenseLines.RecognisedAppend` | expense-parser.js:95-97 | filtering a concatenation of token lists is the concatenation of the filtered lists (order and duplicates kept) |
| `ExpenseLines.ParsePaymentModes` | expense-parser.js:93-100 | never empty; exactly the trimmed comma-split tokens that are valid modes, in order, when there is one; otherwise the single trimmed mode text |
| `ExpenseLines.RecognisedDrops` | expense-parser.js:95-97 | a token that is not a valid mode once trimmed is dropped |
| `ExpenseLines.PaymentModesRoundTrip` | expense-parser.js:93-100 | any non-empty list of valid modes, duplicates allowed, joined with ", " parses back to itself |
| `ExpenseLines.ModesExampleKnown` | expense-parser.js:93-100 | "UPI, Cash" gives ["UPI", "Cash"] |
| `ExpenseLines.ModesExampleUnknown` | expense-parser.js:99 | "Paytm Wallet" falls back to ["Paytm Wallet"] |
| `ExpenseLines.ModesExampleMixed` | expense-parser.js:95-99 | "UPI, Paytm Wallet" keeps only ["UPI"]: the fallback applies only when nothing is recognised |
| `ExpenseLines.StripBullet` | expense-parser.js:60 | removes a leading bullet and the whitespace after it, a suffix of the line is left, and a line without a bullet is unchanged |
| `ExpenseLines.StripBulletOf` | expense-parser.js:60 | a bullet, any whitespace, then text that does not start with whitespace gives back exactly that text |
| `ExpenseLines.ScanAmount` | expense-parser.js:63 | the scanned prefix, when not empty, is an amount token: optional sign, digits, optionally a point and exactly two digits |
| `ExpenseLines.ScanAmountComplete` | expense-parser.js:63 | an amount token followed by whitespace or `(` is scanned exactly to its end |
| `ExpenseLines.NoAmountAt` | expense-parser.js:63 | text starting with neither a sign nor a digit holds no amount |
| `ExpenseLines.MatchTail` | expense-parser.js:63 | a match of `\s*-\s*amount\s*(modes)$` is a well-formed tail whose text is the whole input |
| `ExpenseLines.MatchTailComplete` | expense-parser.js:63 | every well-formed tail's text is matched, and decomposed exactly as written |
| `ExpenseLines.TailUnique` | expense-parser.js:63 | two well-formed tails with the same text are equal: the tail groups are determined by the text |
| `ExpenseLines.FirstFit` | expense-parser.js:63 | the least value in the range that passes the test, or none when none does |
| `ExpenseLines.ShortestTitle` | expense-parser.js:63 | the chosen title length fits and no shorter non-empty length does; none exactly when no length fits |
| `ExpenseLines.ShortestTitleIs` | expense-parser.js:63 | a fitting length that no shorter length beats is the one chosen |
| `ExpenseLines.Kind` | expense-parser.js:74-77 | the type is `+` or `-` |
| `ExpenseLines.MagnitudeCents` | expense-parser.js:75 | the unsigned amount in hundredths: a whole number `n` gives `100 * n`; `n.dd` gives `n` whole units and `dd` hundredths |
| `ExpenseLines.SignedCents` | expense-parser.js:74-77 | plus or minus the magnitude; non-negative for type `+`, non-positive for type `-` |
| `ExpenseLines.SignedAmounts` | expense-parser.js:74-77 | `+u` gives type `+` and amount +magnitude; `-u` and plain `u` both give type `-` and amount −magnitude |
| `ExpenseLines.WholeAmount` | expense-parser.js:75 | a whole number `n` is read as `100 * n` hundredths |
| `ExpenseLines.DecimalText` | expense-parser.js:75 | any number of hundredths has a two-decimal amount text that reads back as that number |
| `ExpenseLines.TitleNotBlank` | expense-parser.js:83 | a prefix of the cleaned line that starts with a non-space stays non-empty after trimming |
| `ExpenseLines.ParseExpenseLine` | expense-parser.js:58-91 | no record exactly when no title length fits; a record's title is the trimmed shortest fitting title, and the rest of the cleaned line is a well-formed tail whose amount gives the signed amount and type and whose mode text gives the modes; no tag, the given date, the line as `originalLine` |
| `ExpenseLines.ParseWrittenLine` | expense-parser.js:58-91 | a line written as "• title - amount (modes)" parses to exactly that title, the signed amount, its type, the parsed modes, no tag and the line itself |
| `ExpenseLines.ParseBulletLine` | expense-parser.js:58-91 | the same for a line made of a bullet, any whitespace, a plain title and a tail |
| `ExpenseLines.ParseCleanLine` | expense-parser.js:63-88 | any line that cleans to a plain title followed by a well-formed tail gives that title and the tail's amount, type and modes |
| `ExpenseLines.CleanBulletLine` | expense-parser.js:60 | a bullet, any whitespace, a plain title and a tail clean to the title followed by the tail |
| `ExpenseLines.CleanWrittenLine` | expense-parser.js:60 | removing the bullet and trimming a written line leaves the title followed by its tail |
| `ExpenseLines.WrittenTitle` | expense-parser.js:63 | the lazy title is exactly a plain title followed by any well-formed tail; a plain title may hold dashes, provided each dash is followed, past any whitespace, by a character that is neither a sign nor a digit ("Auto-rickshaw", "Tea - snacks") |
| `ExpenseLines.NoShorterTitle` | expense-parser.js:63 | no proper prefix of a plain title is followed by a tail match |
| `ExpenseLines.NoTailInside` | expense-parser.js:63 | a text that ends in a non-space, and in which every dash is followed, past any whitespace, by a character that is neither a sign nor a digit, followed by anything, holds no tail match at its start |
| `Calendar.DaysInMonth` | expense-parser.js:48-50 | 31 days for months 1, 3, 5, 7, 8, 10 and 12, 30 for 4, 6, 9 and 11, and February has 29 exactly in leap years |
| `Calendar.MonthFrom` | expense-parser.js:48 | the first month from the given one whose name or abbreviation, ignoring case, starts the word, no earlier one from there doing so; none exactly when no later month does |
| `Calendar.MonthIndex` | expense-parser.js:48 | a month whose name or abbreviation, ignoring case, starts the word; none exactly when no month does |
| `Calendar.MonthIndexFirst` | expense-parser.js:48 | the month read is the first one that starts the word: no earlier month does |
| `Calendar.MonthByAbbreviation` | expense-parser.js:48 | a word whose first three letters, lower-cased, are a month's abbreviation reads as that month |
| `Calendar.JuneExample` | expense-parser.js:48 | "June" reads as month 6 |
| `Calendar.IsoDate` | expense-parser.js:51 | the text has the `YYYY-MM-DD` shape and its fields read back as the year, month and day given |
| `DateHeaders.MatchHeader` | expense-parser.js:39-40 | a match of the header expression is well formed and its parts make up the whole line |
| `DateHeaders.MatchHeaderComplete` | expense-parser.js:39-40 | every well-formed header is matched and split back into its own parts |
| `DateHeaders.ExtractDate` | expense-parser.js:37-56 | a result is a `YYYY-MM-DD` text in the given year, is a real calendar date, and takes its day from the header's digits and its month from the month word |
| `DateHeaders.ExtractDateOfHeader` | expense-parser.js:43-52 | a well-formed header gives a date exactly when its month word names a month and the day exists in that month of the year; the date is then the formatted year, month and day |
| `DateHeaders.WeekdayIgnored` | expense-parser.js:39-43 | the weekday word never changes the result |
| `DateHeaders.SuffixIgnored` | expense-parser.js:39-43 | the ordinal suffix, or its absence, never changes the result |
| `DateHeaders.ExtractDateJune` | expense-parser.js:37-56 | "Monday, 23rd June" in 2024 gives "2024-06-23" |
| `DateHeaders.ExtractDateFebruary` | expense-parser.js:48-52 | "Friday, 30th February" gives no date |
| `DateHeaders.ExtractDateLateJune` | expense-parser.js:48-52 | "Monday, 32nd June" gives no date |
| `Text.Trim` | expense-parser.js:15 | the result is empty exactly when the text is all whitespace, and otherwise starts and ends with a non-space |
| `Text.TrimPadded` | expense-parser.js:15 | trimming whitespace-padded text that has no whitespace at its ends gives that text |
| `Text.Split` | expense-parser.js:11 | at least one part, and no part contains the separator |
| `Text.JoinSplit` | expense-parser.js:95 | joining the parts of a split with the separator gives the text back |
| `Text.SplitJoin` | expense-parser.js:95 | splitting a join of separator-free parts gives the parts back |
| `Text.PadNumber` | expense-parser.js:51 | the number in decimal digits, zero-padded to the width, reading back as the number |
| `ExpenseParser.Lines` | expense-parser.js:11-15 | at least one line, none holding a line feed, and joined with line feeds they give back the trimmed note |
| `ExpenseParser.Classify` | expense-parser.js:15-31 | a line is blank exactly when it trims to nothing; a header's date is the extracted date in the given year; a bullet line keeps its trimmed text and its parse |
| `ExpenseParser.DatePassesThrough` | expense-parser.js:85 | the date passed to the line parser decides nothing but the record's date field |
| `ExpenseParser.LineRecord` | expense-parser.js:26-30 | a line contributes a record exactly when it is a bullet line that parses, and the record carries the date in force |
| `ExpenseParser.ParseKeepNotes` | expense-parser.js:9-35 | the loop returns the records of the fold over the classified lines |
| `ExpenseParser.ReadLine` | expense-parser.js:14-31 | one iteration: a parsed bullet line appends its record dated with the current date, a header replaces the date, anything else changes nothing |
| `ExpenseParser.ParseLinesStep` | expense-parser.js:14-31 | reading one more line appends at most its own record and moves the date only at a header |
| `ExpenseParser.DateAfter` | expense-parser.js:12-23 | the date in force after the lines is some header's date, or `null` |
| `ExpenseParser.ParseLines` | expense-parser.js:14-31 | no more records than bullet lines |
| `ExpenseParser.RecordsFromLines` | expense-parser.js:14-31 | records come out in line order, each from its own bullet line that parses, dated with the date in force above it, and every such line contributes |
| `ExpenseParser.NoHeaderNoDate` | expense-parser.js:12-23 | the date in force is `null` exactly when no header line came before |
| `ExpenseParser.LastHeaderDates` | expense-parser.js:19-27 | the date in force is the last header's date |
| `ExpenseParser.HeaderStartsWithLetter` | expense-parser.js:19-26 | a header starts with a letter, never a bullet, so no line is both header and expense |
| `ExpenseParser.ParsedNotesLackOnlyDates` | expense-parser.js:105-121 | a record of a parsed note fails validation only with "Missing date", and exactly when its date is `null` |
| `ExpenseParser.ParsedRecordsLackOnlyDates` | expense-parser.js:105-121 | the same for the fold over any classified lines whose headers carry non-empty dates |
| `ExpenseParser.HeaderDatesNonEmpty` | expense-parser.js:19-23 | the date of every header line is a non-empty text |
| `ExpenseParser.Problems` | expense-parser.js:109-120 | at most four reasons, and none exactly when the record is complete |
| `ExpenseParser.ProblemsNamed` | expense-parser.js:109-120 | "Missing title", "Missing date" and "Missing payment mode" appear exactly when that field is empty or absent; "Invalid amount" appears exactly when the amount is absent (`undefined`), so a zero amount passes; at most four reasons |
| `ExpenseParser.LabelledEach` | expense-parser.js:110-119 | each message is the record's 1-based heading followed by its reason, one per reason |
| `ExpenseParser.ProblemsInPieces` | expense-parser.js:108-121 | a record's messages are, in order, the title, amount, date and mode messages, each present exactly when its check fails |
| `ExpenseParser.AllErrors` | expense-parser.js:108-121 | no more than four messages per record |
| `ExpenseParser.CheckExpense` | expense-parser.js:108-121 | one iteration appends exactly that record's messages |
| `ExpenseParser.ValidateExpenses` | expense-parser.js:105-127 | the messages of every record in order, with no short-circuit, and `isValid` exactly when there are none |
| `ExpenseParser.ValidIffComplete` | expense-parser.js:123-126 | valid exactly when every record is complete |
| `NotionClient.ModeOptions` | notion-client.js:124 | one option per mode, same order, named by the mode |
| `NotionClient.FormatExpenseProperties` | notion-client.js:80-138 | only the six known keys; each is present exactly when its own field passes its guard, and holds that field's value (date start, signed amount, title text, tag, modes in order, type) |
| `NotionClient.OptionNames` | notion-client.js:53-55 | the option names in order, or none when the part or its options are missing |
| `NotionClient.GetPropertyOptions` | notion-client.js:50-59 | names for `select` and `multi_select` columns, from the part of the same name; `null` for any other type |
| `NotionClient.OptionsReadOwnPart` | notion-client.js:51-55 | a select column ignores the multi-select part, and a multi-select column ignores the select part |
| `Server.IdAfter` | server.js:144-145 | the least id position after the host at which an id of the shape starts; none exactly when there is none |
| `Server.TerminatorBlocks` | server.js:144-145 | `.*?` does not cross a line terminator: no id after one belongs to an earlier host |
| `Server.FirstMatch` | server.js:144-149 | the leftmost host position that has an id after it, with the least id position there; none exactly when the pattern does not match |
| `Server.FirstMatchIs` | server.js:144-149 | a leftmost match with its least id position is the match found |
| `Server.RemoveDashes` | server.js:151 | no dash is left, and the text gets no longer |
| `Server.RemoveDashesOfId` | server.js:151 | a compact id is kept as it is; a dashed id becomes its five hex groups joined in order; either way exactly 32 hex digits |
| `Server.RemoveDashesAppend` | server.js:151 | removing dashes from a concatenation removes them from each part |
| `Server.DropDash` | server.js:151 | a dash after a run of hex digits is dropped and the digits are kept |
| `Server.DropDashAt` | server.js:151 | the same, counting positions in the whole id |
| `Server.DashedGroups` | server.js:151 | a dashed id loses exactly its four dashes, keeping its groups in order |
| `Server.NoDashesKept` | server.js:151 | a compact id is left as it is |
| `Server.IdOf` | server.js:149-151 | a found id is 32 hex digits with no dash; none exactly when the pattern has no match |
| `Server.IdOfMatch` | server.js:149-151 | the leftmost match gives its id, dashes removed |
| `Server.ExtractDatabaseId` | server.js:141-156 | success is 32 hex digits with no dash; the error is thrown exactly when neither pattern matches, with the fixed message |
| `Server.CompactFirst` | server.js:143-150 | a compact match wins, even when a dashed id occurs earlier in the URL |
| `Server.DashedSecond` | server.js:143-150 | without a compact match, the leftmost dashed match gives the id, dashes removed |
| `Server.CompactUrl` | server.js:144 | a compact id right after `notion.so/` is the id |
| `Server.DashedUrl` | server.js:145 | a dashed id right after `notion.so/` gives its 32 hex digits |
| `Server.Successes` | server.js:104-119 | the number of successful attempts is at most the number of attempts |
| `Server.ResultFor` | server.js:110-117 | the result names the record's title, succeeds exactly when `addExpense` succeeded, and carries the error's message exactly when it failed |
| `Server.UploadEach` | server.js:103-120 | one result per record, in order, each with that record's title and outcome; the success count is the number of successes, and successes plus errors is the number of records |
| `Server.Summary` | server.js:124 | "Successfully uploaded ", then the success count in decimal digits, then " expenses. ", then the failure count in decimal digits, then " failed."; each count reads back from its digits |
| `Server.UploadExpenses` | server.js:89-138 | status 400 when the token or URL is missing, status 500 with the error's message when the URL holds no id, and otherwise one result per record with `total` = successes + errors |

## Left out

- Reading the clock (`new Date().getFullYear()`) is replaced by a year parameter in 1000..9999.
  moment reads a year text of other lengths differently.
- moment itself is not part of this model. Only the behaviour of the `D MMMM YYYY` parse used
  here is modelled: a lenient month prefix, then a check that the day exists in that month.
- `parseFloat` and floating point are replaced by integer hundredths. Rounding of amounts too
  large for a double and the distinction between `-0` and `0` are not modelled.
- `ExpenseLines.ParseExpenseLine` gives `originalLine` the line it is called with. In the source
  that line is already trimmed by `parseKeepNotes`, which is how `ExpenseParser.Classify` calls it.
- `ExpenseLines.ShortestTitle` tries every title length from 1 to the line's length. It does not
  model the regular-expression engine stopping at a line terminator. The shortest fitting length
  is the same either way, because a fitting title has no line terminator.
- `ExpenseLines.ParseWrittenLine`, `ExpenseLines.ParseBulletLine`, `ExpenseLines.WrittenTitle` and
  `ExpenseLines.NoTailInside` assume a plain title: every dash in it is followed, past any
  whitespace, by a character that is neither a sign nor a digit. Some titles fail this although
  no dash in them starts a tail, and the source still reads them back whole: "Tea - 2 cups" in
  "• Tea - 2 cups - 5 (Cash)", and "Tea-" in "• Tea- - 5 (Cash)". Such titles are covered only by
  `ExpenseLines.ParseExpenseLine` and `ExpenseLines.ShortestTitle`.
- `console.warn`, `console.log` and `console.error` output is not modelled.
- Records are Dafny values. A missing `amount`, `date` or `tag` is `None`, and a `None` amount
  stands for `undefined`. `title` and `type` (`kind`) are plain strings, so a missing one is
  modelled as "". `validateExpenses` and `formatExpenseProperties` treat "" as they treat
  `undefined`. The upload result's `expense` field differs: the source sends `undefined` for a
  record without a title, and `Server.ResultFor` gives "". An `amount` of `null` is not modelled: `validateExpenses` accepts it, since it
  checks only for `undefined` and `isNaN`, and `formatExpenseProperties` sends it as
  `number: null`. The `isNaN` case and a missing `modes` or `expenses` field are not
  modelled either.
- The Notion SDK is not part of this model. `addExpense` is not modelled except for its
  success or failure, which is given per record as `outcome(i)`. `testConnection` and
  `getDatabaseSchema`'s database read are left out too.
- Express routing, static files, `app.listen`, and the `/api/test-notion` and
  `/api/parse-expenses` routes are not modelled.
- public/script.js, the browser page, is not modelled.
- `Server.UploadExpenses`: the 500 status is modelled only for the error that
  `extractDatabaseId` throws. Other exceptions reaching the catch-all are not modelled.
