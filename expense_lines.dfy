/**
  * `ExpenseParser.parseExpenseLine` and `ExpenseParser.parsePaymentModes` (expense-parser.js):
  * one bulleted line "<title> - <signed amount> (<modes>)" becomes one expense record.
  *
  * The regular expression `^(.+?)\s*-\s*([+\-]?\d+(?:\.\d{2})?)\s*\(([^)]+)\)$` is split at the
  * lazy title: for a fixed title length, the rest (the "tail") can be matched in at most one way,
  * and the scanner `MatchTail` finds exactly the decompositions `TailText` of well-formed `Tail`s
  * (its contract and `MatchTailComplete`). The title is the shortest non-empty prefix, free of
  * line terminators, after which the tail matches (`ShortestTitle`).
  */
module ExpenseLines {
  import opened Wrappers
  import opened Text

  /** `this.validModes`: the closed set of recognised payment modes. */
  const ValidModes: seq<string> := ["UPI", "Cash", "Card", "IMPS", "Bank A/C"]

  /**
    * One expense record as the parser builds it and as the upload route receives it back.
    * `amount` is in hundredths (cents), `None` when the field is missing; `kind` is the source's
    * `type` field ("+" for a gain, "-" for a spend); `date` is `YYYY-MM-DD` or `None` (`null`).
    */
  datatype Expense = Expense(
    title: string,
    amount: Option<int>,
    date: Option<string>,
    kind: string,
    modes: seq<string>,
    tag: Option<string>,
    originalLine: string)

  // ---------------------------------------------------------------------------------------
  // Payment modes

  /** The comma-separated tokens, trimmed, that are valid modes, in order, duplicates kept. */
  function Recognised(tokens: seq<string>): (r: seq<string>)
    ensures |r| <= |tokens|
    ensures forall i :: 0 <= i < |r| ==> r[i] in ValidModes
    ensures |r| == 0 <==> forall i :: 0 <= i < |tokens| ==> Trim(tokens[i]) !in ValidModes
    decreases |tokens|
  {
    if |tokens| == 0 then []
    else
      var rest := Recognised(tokens[1..]);
      if Trim(tokens[0]) in ValidModes then [Trim(tokens[0])] + rest
      else
        assert forall i :: 1 <= i < |tokens| ==> tokens[i] == tokens[1..][i - 1];
        rest
  }

  /** Filtering distributes over concatenation: `Recognised` keeps order and drops nothing valid. */
  lemma {:induction false} RecognisedAppend(a: seq<string>, b: seq<string>)
    ensures Recognised(a + b) == Recognised(a) + Recognised(b)
    decreases |a|
  {
    if |a| > 0 {
      var ab := a + b;
      assert ab[0] == a[0];
      assert ab[1..] == a[1..] + b;
      RecognisedAppend(a[1..], b);
      var head := if Trim(a[0]) in ValidModes then [Trim(a[0])] else [];
      assert Recognised(a) == head + Recognised(a[1..]);
      assert Recognised(ab) == head + (Recognised(a[1..]) + Recognised(b));
      AppendAssociates(head, Recognised(a[1..]), Recognised(b));
    } else {
      assert a + b == b;
    }
  }

  /**
    * `parsePaymentModes(modeStr)`: the recognised tokens if there is any, otherwise the whole
    * trimmed text as the single mode. Never empty.
    */
  function ParsePaymentModes(modeText: string): (modes: seq<string>)
    ensures |modes| >= 1
    ensures Recognised(Split(modeText, ',')) == [] ==> modes == [Trim(modeText)]
    ensures Recognised(Split(modeText, ',')) != [] ==> modes == Recognised(Split(modeText, ','))
    ensures Recognised(Split(modeText, ',')) != [] ==>
              |modes| <= |Split(modeText, ',')| && forall i :: 0 <= i < |modes| ==> modes[i] in ValidModes
  {
    var recognised := Recognised(Split(modeText, ','));
    if |recognised| > 0 then recognised else [Trim(modeText)]
  }

  /** The parts of `modes` joined by ", " as they are split at the commas. */
  function SpacedParts(modes: seq<string>): (parts: seq<string>)
    requires |modes| >= 1
    ensures |parts| == |modes| && parts[0] == modes[0]
    ensures forall i :: 1 <= i < |modes| ==> parts[i] == " " + modes[i]
  {
    [modes[0]] + seq(|modes| - 1, i requires 0 <= i < |modes| - 1 => " " + modes[i + 1])
  }

  lemma {:induction false} JoinSpaced(modes: seq<string>)
    requires |modes| >= 1
    ensures Join(modes, ", ") == Join(SpacedParts(modes), ",")
    decreases |modes|
  {
    if |modes| > 1 {
      JoinSpaced(modes[1..]);
      var parts := SpacedParts(modes);
      var tailParts := SpacedParts(modes[1..]);
      assert Join(parts[1..], ",") == " " + Join(tailParts, ",") by {
        JoinPrefixed(tailParts, parts[1..]);
      }
    }
  }

  /** Prefixing the first part with a space prefixes the join with it. */
  lemma JoinPrefixed(parts: seq<string>, spaced: seq<string>)
    requires |parts| >= 1 && |spaced| == |parts|
    requires spaced[0] == " " + parts[0] && spaced[1..] == parts[1..]
    ensures Join(spaced, ",") == " " + Join(parts, ",")
  {
    if |parts| > 1 {
      assert Join(spaced, ",") == spaced[0] + "," + Join(spaced[1..], ",");
    }
  }

  /** Modes written out as the notes app shows them ("UPI, Cash") are read back unchanged. */
  lemma {:induction false} PaymentModesRoundTrip(modes: seq<string>)
    requires |modes| >= 1
    requires forall i :: 0 <= i < |modes| ==> modes[i] in ValidModes
    ensures ParsePaymentModes(Join(modes, ", ")) == modes
  {
    var parts := SpacedParts(modes);
    JoinSpaced(modes);
    forall i | 0 <= i < |parts| ensures ',' !in parts[i] {
      ValidModeShape(modes[i]);
    }
    SplitJoin(parts, ',');
    assert Join(parts, [',']) == Join(parts, ",");
    RecognisedSpaced(modes, parts);
  }

  /** A valid mode has no comma and no surrounding white space. */
  lemma ValidModeShape(m: string)
    requires m in ValidModes
    ensures ',' !in m && ')' !in m && |m| >= 1
    ensures Trim(m) == m && Trim(" " + m) == m
  {
    ValidModeChars(m);
    TrimTrimmed(m);
    TrimPadded(" ", m, "");
    assert " " + m + "" == " " + m;
  }

  lemma ValidModeChars(m: string)
    requires m in ValidModes
    ensures ',' !in m && ')' !in m && |m| >= 1
    ensures !IsSpace(m[0]) && !IsSpace(m[|m| - 1])
  {
    if m == "UPI" {
    } else if m == "Cash" {
    } else if m == "Card" {
    } else if m == "IMPS" {
    } else {
      assert m == "Bank A/C";
    }
  }

  lemma {:induction false} RecognisedSpaced(modes: seq<string>, parts: seq<string>)
    requires |modes| >= 1 && parts == SpacedParts(modes)
    requires forall i :: 0 <= i < |modes| ==> modes[i] in ValidModes
    ensures Recognised(parts) == modes
    decreases |modes|
  {
    ValidModeShape(modes[0]);
    RecognisedKeeps(parts, modes[0]);
    if |modes| == 1 {
      assert parts[1..] == [];
    } else {
      SpacedPartsTail(modes, parts);
      RecognisedSpacedTail(modes[1..], parts[1..]);
      HeadTail(modes);
    }
  }

  /** Past the first, the parts are the remaining modes with a space before each. */
  lemma SpacedPartsTail(modes: seq<string>, parts: seq<string>)
    requires |modes| >= 2 && parts == SpacedParts(modes)
    requires forall i :: 0 <= i < |modes| ==> modes[i] in ValidModes
    ensures |parts[1..]| == |modes[1..]|
    ensures forall i :: 0 <= i < |modes[1..]| ==> modes[1..][i] in ValidModes && parts[1..][i] == " " + modes[1..][i]
  {
    forall i | 0 <= i < |modes[1..]|
      ensures modes[1..][i] in ValidModes && parts[1..][i] == " " + modes[1..][i]
    {
      assert modes[1..][i] == modes[i + 1] && parts[1..][i] == parts[i + 1];
    }
  }

  /** The parts after the first all carry one leading space. */
  lemma {:induction false} RecognisedSpacedTail(modes: seq<string>, parts: seq<string>)
    requires |parts| == |modes|
    requires forall i :: 0 <= i < |modes| ==> modes[i] in ValidModes && parts[i] == " " + modes[i]
    ensures Recognised(parts) == modes
    decreases |modes|
  {
    if |modes| > 0 {
      ValidModeShape(modes[0]);
      RecognisedKeeps(parts, modes[0]);
      RecognisedSpacedTail(modes[1..], parts[1..]);
      HeadTail(modes);
    }
  }

  /** A first token that trims to a valid mode is kept, as that mode. */
  lemma RecognisedKeeps(tokens: seq<string>, m: string)
    requires |tokens| >= 1 && Trim(tokens[0]) == m && m in ValidModes
    ensures Recognised(tokens) == [m] + Recognised(tokens[1..])
  {
  }

  /** A first token that does not trim to a valid mode is dropped. */
  lemma RecognisedDrops(tokens: seq<string>)
    requires |tokens| >= 1 && Trim(tokens[0]) !in ValidModes
    ensures Recognised(tokens) == Recognised(tokens[1..])
  {
  }

  /** Recognised modes written with ", " are kept in order. */
  lemma ModesExampleKnown()
    ensures ParsePaymentModes("UPI, Cash") == ["UPI", "Cash"]
  {
    JoinKnown();
    PaymentModesRoundTrip(["UPI", "Cash"]);
  }

  lemma JoinKnown()
    ensures Join(["UPI", "Cash"], ", ") == "UPI, Cash"
  {
    assert Join(["Cash"], ", ") == "Cash";
  }

  /** An unknown mode text is kept verbatim, trimmed, as the single mode. */
  lemma ModesExampleUnknown()
    ensures ParsePaymentModes("Paytm Wallet") == ["Paytm Wallet"]
  {
    UnknownTrimmed();
    SplitWhole("Paytm Wallet", ',');
    assert Recognised(["Paytm Wallet"]) == [];
  }

  /** Unknown tokens are dropped when some token is recognised. */
  lemma ModesExampleMixed()
    ensures ParsePaymentModes("UPI, Paytm Wallet") == ["UPI"]
  {
    SplitMixed();
    ValidModeShape("UPI");
    UnknownPadded();
    UnknownTrimmed();
    assert Recognised([" Paytm Wallet"]) == [];
    assert Recognised(["UPI", " Paytm Wallet"]) == ["UPI"] + Recognised([" Paytm Wallet"]);
  }

  lemma SplitMixed()
    ensures Split("UPI, Paytm Wallet", ',') == ["UPI", " Paytm Wallet"]
  {
    var parts := ["UPI", " Paytm Wallet"];
    assert Join(parts, [',']) == "UPI, Paytm Wallet" by {
      assert Join([" Paytm Wallet"], [',']) == " Paytm Wallet";
    }
    SplitJoin(parts, ',');
  }

  lemma UnknownTrimmed()
    ensures Trim("Paytm Wallet") == "Paytm Wallet" && "Paytm Wallet" !in ValidModes
  {
    var w := "Paytm Wallet";
    assert !IsSpace(w[0]) && !IsSpace(w[|w| - 1]);
    TrimTrimmed(w);
  }

  lemma UnknownPadded()
    ensures Trim(" Paytm Wallet") == "Paytm Wallet"
  {
    PaytmWalletEdges();
    OneSpace();
    TrimPadded(" ", "Paytm Wallet", "");
  }

  lemma OneSpace()
    ensures All(" ", IsSpace) && All("", IsSpace) && " " + "Paytm Wallet" + "" == " Paytm Wallet"
  {
  }

  lemma PaytmWalletEdges()
    ensures !IsSpace("Paytm Wallet"[0]) && !IsSpace("Paytm Wallet"[11])
  {
  }

  // ---------------------------------------------------------------------------------------
  // The part of an expense line after the title

  /** `[+\-]` */
  predicate IsSign(c: char) {
    c == '+' || c == '-'
  }

  /** `\d+(?:\.\d{2})?`: digits, optionally followed by a point and exactly two digits. */
  predicate IsUnsignedAmount(u: string) {
    || (|u| >= 1 && All(u, IsDigit))
    || (|u| >= 4 && u[|u| - 3] == '.' && All(u[..|u| - 3], IsDigit) && All(u[|u| - 2..], IsDigit))
  }

  /** The length of the optional sign that starts `a`. */
  function SignLength(a: string): (n: nat)
    ensures n <= 1 && n <= |a|
    ensures n == 1 <==> |a| > 0 && IsSign(a[0])
  {
    if |a| > 0 && IsSign(a[0]) then 1 else 0
  }

  /** `[+\-]?\d+(?:\.\d{2})?`: the amount token the regular expression captures. */
  predicate IsAmountToken(a: string) {
    IsUnsignedAmount(a[SignLength(a)..])
  }

  /** The pieces of the text after the title: `\s*-\s*(amount)\s*\((modes)\)$`. */
  datatype Tail = Tail(
    lead: string,      // `\s*` before the dash
    gap: string,       // `\s*` after the dash
    amount: string,    // `[+\-]?\d+(?:\.\d{2})?`
    pad: string,       // `\s*` before the parenthesis
    modeText: string)  // `[^)]+`

  predicate WellFormedTail(t: Tail) {
    && All(t.lead, IsSpace) && All(t.gap, IsSpace) && IsAmountToken(t.amount) && All(t.pad, IsSpace)
    && |t.modeText| >= 1 && ')' !in t.modeText
  }

  /** The text the pieces spell. */
  function TailText(t: Tail): string {
    t.lead + "-" + t.gap + t.amount + t.pad + "(" + t.modeText + ")"
  }

  /** `TailText` regrouped as the scanner consumes it. */
  lemma TailTextAssociates(t: Tail)
    ensures TailText(t) == t.lead + "-" + (t.gap + (t.amount + (t.pad + ("(" + t.modeText + ")"))))
  {
  }

  /** `\(([^)]+)\)$` */
  function MatchModes(t: string): (r: Option<string>)
    ensures r.Some? ==> |r.value| >= 1 && ')' !in r.value && t == "(" + r.value + ")"
  {
    if |t| >= 3 && t[0] == '(' && t[|t| - 1] == ')' && ')' !in t[1..|t| - 1] then
      assert t == [t[0]] + t[1..|t| - 1] + [t[|t| - 1]];
      Some(t[1..|t| - 1])
    else None
  }

  /** `\s*\(([^)]+)\)$` */
  function MatchAfterAmount(t: string): (r: Option<(string, string)>)
    ensures r.Some? ==> All(r.value.0, IsSpace) && |r.value.1| >= 1 && ')' !in r.value.1
    ensures r.Some? ==> t == r.value.0 + ("(" + r.value.1 + ")")
  {
    var p := LeadingCount(t, IsSpace);
    assert t == t[..p] + t[p..];
    match MatchModes(t[p..])
    case None => None
    case Some(m) => Some((t[..p], m))
  }

  /** The length of the amount token `[+\-]?\d+(?:\.\d{2})?` that starts `t`, or 0 when there is none. */
  function ScanAmount(t: string): (k: nat)
    ensures k <= |t|
    ensures k > 0 ==> IsAmountToken(t[..k])
  {
    var s := SignLength(t);
    var d := LeadingCount(t[s..], IsDigit);
    assert t[s..][..d] == t[s..s + d];
    if d == 0 then 0
    else if s + d + 3 <= |t| && t[s + d] == '.' && IsDigit(t[s + d + 1]) && IsDigit(t[s + d + 2]) then
      ScanAmountToken(t, s, d, s + d + 3);
      s + d + 3
    else
      ScanAmountToken(t, s, d, s + d);
      s + d
  }

  lemma ScanAmountToken(t: string, s: nat, d: nat, k: nat)
    requires s == SignLength(t) && 1 <= d && s + d <= k <= |t| && All(t[s..s + d], IsDigit)
    requires k == s + d || (k == s + d + 3 && t[s + d] == '.' && IsDigit(t[s + d + 1]) && IsDigit(t[s + d + 2]))
    ensures IsAmountToken(t[..k])
  {
    if k == s + d {
      WholeToken(t, s, d);
    } else {
      DecimalToken(t, s, d);
    }
  }

  /** A prefix keeps the sign of the text it is cut from. */
  lemma SignOfPrefix(t: string, k: nat)
    requires 1 <= k <= |t|
    ensures SignLength(t[..k]) == SignLength(t)
  {
    assert t[..k][0] == t[0];
  }

  lemma WholeToken(t: string, s: nat, d: nat)
    requires s == SignLength(t) && 1 <= d && s + d <= |t| && All(t[s..s + d], IsDigit)
    ensures IsAmountToken(t[..s + d])
  {
    SignOfPrefix(t, s + d);
    assert t[..s + d][s..] == t[s..s + d];
  }

  lemma DecimalToken(t: string, s: nat, d: nat)
    requires s == SignLength(t) && 1 <= d && s + d + 3 <= |t| && All(t[s..s + d], IsDigit)
    requires t[s + d] == '.' && IsDigit(t[s + d + 1]) && IsDigit(t[s + d + 2])
    ensures IsAmountToken(t[..s + d + 3])
  {
    var k := s + d + 3;
    SignOfPrefix(t, k);
    var u := t[..k][s..];
    assert u == t[s..k];
    assert u[..|u| - 3] == t[s..s + d];
    assert u[|u| - 3] == '.';
    assert u[|u| - 2..] == [t[s + d + 1], t[s + d + 2]];
  }


  /** `([+\-]?\d+(?:\.\d{2})?)\s*\(([^)]+)\)$` */
  function MatchFromAmount(t: string): (r: Option<(string, (string, string))>)
    ensures r.Some? ==> IsAmountToken(r.value.0) && All(r.value.1.0, IsSpace)
    ensures r.Some? ==> |r.value.1.1| >= 1 && ')' !in r.value.1.1
    ensures r.Some? ==> t == r.value.0 + (r.value.1.0 + ("(" + r.value.1.1 + ")"))
  {
    var k := ScanAmount(t);
    assert t == t[..k] + t[k..];
    if k == 0 then None
    else
      match MatchAfterAmount(t[k..])
      case None => None
      case Some(rest) => Some((t[..k], rest))
  }

  /** `\s*` then `MatchFromAmount`: the stage after the dash. */
  function MatchAfterDash(t: string): (r: Option<(string, (string, (string, string)))>)
    ensures r.Some? ==> All(r.value.0, IsSpace) && IsAmountToken(r.value.1.0) && All(r.value.1.1.0, IsSpace)
    ensures r.Some? ==> |r.value.1.1.1| >= 1 && ')' !in r.value.1.1.1
    ensures r.Some? ==> t == r.value.0 + (r.value.1.0 + (r.value.1.1.0 + ("(" + r.value.1.1.1 + ")")))
  {
    var g := LeadingCount(t, IsSpace);
    assert t == t[..g] + t[g..];
    match MatchFromAmount(t[g..])
    case None => None
    case Some(rest) => Some((t[..g], rest))
  }

  /**
    * The tail of the regular expression, `\s*-\s*([+\-]?\d+(?:\.\d{2})?)\s*\(([^)]+)\)$`, as a
    * left-to-right scanner anchored at the start of `t`: its match, or `None`.
    */
  function MatchTail(t: string): (r: Option<Tail>)
    ensures r.Some? ==> WellFormedTail(r.value) && TailText(r.value) == t
  {
    var l := LeadingCount(t, IsSpace);
    if l == |t| || t[l] != '-' then None
    else
      var afterDash := t[l + 1..];
      assert t == t[..l] + "-" + afterDash;
      match MatchAfterDash(afterDash)
      case None => None
      case Some((gap, (amount, (pad, modeText)))) =>
        var tl := Tail(t[..l], gap, amount, pad, modeText);
        TailTextAssociates(tl);
        Some(tl)
  }

  lemma MatchModesComplete(m: string)
    requires |m| >= 1 && ')' !in m
    ensures MatchModes("(" + m + ")") == Some(m)
  {
    var t := "(" + m + ")";
    assert t[1..|t| - 1] == m;
  }

  lemma MatchAfterAmountComplete(pad: string, m: string)
    requires All(pad, IsSpace) && |m| >= 1 && ')' !in m
    ensures MatchAfterAmount(pad + ("(" + m + ")")) == Some((pad, m))
  {
    var t := pad + ("(" + m + ")");
    LeadingCountOf(pad, "(" + m + ")", IsSpace);
    assert t[..|pad|] == pad;
    assert t[|pad|..] == "(" + m + ")";
    MatchModesComplete(m);
  }

  /** The scanner takes the whole token when a space or the parenthesis follows it. */
  lemma ScanAmountComplete(a: string, rest: string)
    requires IsAmountToken(a) && |rest| >= 1 && (IsSpace(rest[0]) || rest[0] == '(')
    ensures ScanAmount(a + rest) == |a|
  {
    var t := a + rest;
    var s := SignLength(a);
    var u := a[s..];
    assert SignLength(t) == s by { assert t[0] == a[0]; }
    assert t[s..] == u + rest;
    if All(u, IsDigit) {
      ScanWholeComplete(a, rest);
    } else {
      ScanDecimalComplete(a, rest);
    }
  }

  /** An amount without a decimal part is scanned up to the character after its digits. */
  lemma ScanWholeComplete(a: string, rest: string)
    requires IsAmountToken(a) && |rest| >= 1 && (IsSpace(rest[0]) || rest[0] == '(')
    requires SignLength(a + rest) == SignLength(a) && All(a[SignLength(a)..], IsDigit)
    ensures ScanAmount(a + rest) == |a|
  {
    var t := a + rest;
    var s := SignLength(a);
    var u := a[s..];
    assert t[s..] == u + rest;
    assert !IsDigit(rest[0]);
    LeadingCountOf(u, rest, IsDigit);
    assert t[s + |u|] == rest[0];
  }

  /** An amount with a decimal part is scanned through its two decimals. */
  lemma ScanDecimalComplete(a: string, rest: string)
    requires IsAmountToken(a) && |rest| >= 1 && (IsSpace(rest[0]) || rest[0] == '(')
    requires SignLength(a + rest) == SignLength(a) && !All(a[SignLength(a)..], IsDigit)
    ensures ScanAmount(a + rest) == |a|
  {
    var t := a + rest;
    var s := SignLength(a);
    var u := a[s..];
    var w := u[..|u| - 3];
    var frac := u[|u| - 3..];
    assert IsUnsignedAmount(u) && |u| >= 4;
    assert frac[0] == '.' && IsDigit(frac[1]) && IsDigit(frac[2]) by {
      assert frac[1..] == u[|u| - 2..];
    }
    assert t[s..] == w + (frac + rest);
    LeadingCountOf(w, frac + rest, IsDigit);
    assert LeadingCount(t[s..], IsDigit) == |w| >= 1;
    assert t[s + |w|..s + |w| + 3] == frac;
    assert s + |w| + 3 == |a|;
  }

  lemma MatchFromAmountComplete(a: string, pad: string, m: string)
    requires IsAmountToken(a) && All(pad, IsSpace) && |m| >= 1 && ')' !in m
    ensures MatchFromAmount(a + (pad + ("(" + m + ")"))) == Some((a, (pad, m)))
  {
    var rest := pad + ("(" + m + ")");
    var t := a + rest;
    assert rest[0] == if |pad| > 0 then pad[0] else '(';
    ScanAmountComplete(a, rest);
    assert t[..|a|] == a && t[|a|..] == rest;
    MatchAfterAmountComplete(pad, m);
  }

  lemma MatchAfterDashComplete(gap: string, a: string, pad: string, m: string)
    requires All(gap, IsSpace) && IsAmountToken(a) && All(pad, IsSpace) && |m| >= 1 && ')' !in m
    ensures MatchAfterDash(gap + (a + (pad + ("(" + m + ")")))) == Some((gap, (a, (pad, m))))
  {
    var rest := a + (pad + ("(" + m + ")"));
    var t := gap + rest;
    assert !IsSpace(rest[0]) by {
      assert rest[0] == a[0];
      if SignLength(a) == 0 { assert IsDigit(a[SignLength(a)..][0]); }
    }
    LeadingCountOf(gap, rest, IsSpace);
    assert t[..|gap|] == gap && t[|gap|..] == rest;
    MatchFromAmountComplete(a, pad, m);
  }

  /** The scanner finds every match of the tail, with the same captures. */
  lemma MatchTailComplete(tl: Tail)
    requires WellFormedTail(tl)
    ensures MatchTail(TailText(tl)) == Some(tl)
  {
    var afterDash := tl.gap + (tl.amount + (tl.pad + ("(" + tl.modeText + ")")));
    var t := TailText(tl);
    TailTextAssociates(tl);
    assert t == tl.lead + ("-" + afterDash);
    LeadingCountOf(tl.lead, "-" + afterDash, IsSpace);
    assert t[|tl.lead|] == '-';
    assert t[..|tl.lead|] == tl.lead && t[|tl.lead| + 1..] == afterDash;
    MatchAfterDashComplete(tl.gap, tl.amount, tl.pad, tl.modeText);
  }

  /** For a given start, the tail can be matched in at most one way. */
  lemma TailUnique(t1: Tail, t2: Tail)
    requires WellFormedTail(t1) && WellFormedTail(t2) && TailText(t1) == TailText(t2)
    ensures t1 == t2
  {
    MatchTailComplete(t1);
    MatchTailComplete(t2);
  }

  // ---------------------------------------------------------------------------------------
  // Amounts

  /** `parseFloat` of an unsigned amount token, in hundredths. */
  function MagnitudeCents(u: string): (c: nat)
    requires IsUnsignedAmount(u)
    ensures All(u, IsDigit) ==> c / 100 == DigitsValue(u) && c % 100 == 0
    ensures !All(u, IsDigit) ==>
              c / 100 == DigitsValue(u[..|u| - 3]) && c % 100 == DigitsValue(u[|u| - 2..])
  {
    if All(u, IsDigit) then 100 * DigitsValue(u)
    else
      var cents := u[|u| - 2..];
      DigitsValueTwo(cents);
      assert DigitsValue(cents) < 100;
      100 * DigitsValue(u[..|u| - 3]) + DigitsValue(cents)
  }

  /**
    * The record's `amount`: the token without its sign (`amountStr.replace(/[+\-]/, '')`, which can
    * only remove a leading sign), positive when the token starts with `+` and negated otherwise.
    */
  function SignedCents(a: string): (v: int)
    requires IsAmountToken(a)
    ensures v == MagnitudeCents(a[SignLength(a)..]) || v == -(MagnitudeCents(a[SignLength(a)..]) as int)
    ensures Kind(a) == "+" ==> v >= 0
    ensures Kind(a) == "-" ==> v <= 0
  {
    var m: int := MagnitudeCents(a[SignLength(a)..]);
    if |a| > 0 && a[0] == '+' then m else -m
  }

  /** The record's `type`: `+` for a gain, written with an explicit `+`, and `-` for anything else. */
  function Kind(a: string): (k: string)
    ensures k == "+" || k == "-"
  {
    if |a| > 0 && a[0] == '+' then "+" else "-"
  }

  /** A title taken from the start of a cleaned line is not blank. */
  lemma TitleNotBlank(clean: string, n: nat)
    requires 1 <= n <= |clean| && !IsSpace(clean[0])
    ensures |Trim(clean[..n])| >= 1
  {
    assert clean[..n][0] == clean[0];
  }

  /** `n` hundredths written with two decimals, as a note would show them ("12.05"). */
  function DecimalText(c: nat): (u: string)
    ensures IsUnsignedAmount(u) && !All(u, IsDigit)
    ensures MagnitudeCents(u) == c
  {
    var whole := NatToString(c / 100);
    var frac := PadNumber(c % 100, 2);
    var u := whole + "." + frac;
    assert u[..|u| - 3] == whole && u[|u| - 3] == '.' && u[|u| - 2..] == frac;
    u
  }

  /** A whole amount is read as that many hundredths. */
  lemma WholeAmount(n: nat)
    ensures IsUnsignedAmount(NatToString(n)) && MagnitudeCents(NatToString(n)) == 100 * n
  {
  }

  /** A token with an explicit sign, or none, is read as the signed number of hundredths it shows. */
  lemma SignedAmounts(u: string)
    requires IsUnsignedAmount(u)
    ensures IsAmountToken("+" + u) && SignedCents("+" + u) == MagnitudeCents(u) && Kind("+" + u) == "+"
    ensures IsAmountToken("-" + u) && SignedCents("-" + u) == -(MagnitudeCents(u) as int) && Kind("-" + u) == "-"
    ensures IsAmountToken(u) && SignedCents(u) == -(MagnitudeCents(u) as int) && Kind(u) == "-"
  {
    assert ("+" + u)[1..] == u && ("-" + u)[1..] == u;
    assert u[0] == if All(u, IsDigit) then u[0] else u[..|u| - 3][0];
    assert !IsSign(u[0]);
  }

  // ---------------------------------------------------------------------------------------
  // Bullets and the lazy title

  /** `[•\-\*]`: the characters an expense line starts with. */
  predicate IsBullet(c: char) {
    c == '\U{2022}' || c == '-' || c == '*'
  }

  // `line.replace(/^[•\-\*]\s*/, '')`: the bullet and the white space after it removed.
  function StripBullet(line: string): (r: string)
    ensures |r| <= |line| && r == line[|line| - |r|..]
    ensures |line| > 0 && IsBullet(line[0]) ==> |r| < |line| && (|r| == 0 || !IsSpace(r[0]))
    ensures !(|line| > 0 && IsBullet(line[0])) ==> r == line
  {
    if |line| > 0 && IsBullet(line[0]) then
      var rest := line[1..];
      rest[LeadingCount(rest, IsSpace)..]
    else line
  }

  /** A bullet followed by white space and a text that starts with no white space gives that text. */
  lemma StripBulletOf(b: char, spaces: string, x: string)
    requires IsBullet(b) && All(spaces, IsSpace) && (|x| == 0 || !IsSpace(x[0]))
    ensures StripBullet([b] + spaces + x) == x
  {
    var line := [b] + spaces + x;
    assert line[1..] == spaces + x;
    LeadingCountOf(spaces, x, IsSpace);
    assert (spaces + x)[|spaces|..] == x;
  }

  /** The text the expense regular expression is matched against. */
  function CleanLine(line: string): string {
    Trim(StripBullet(line))
  }

  /** `(.+?)` can take the first `n` characters of `s` and the tail then matches the rest. */
  predicate TitleFits(s: string, n: nat) {
    1 <= n <= |s| && All(s[..n], IsDotChar) && MatchTail(s[n..]).Some?
  }

  /** The least `k` in `lo..hi` with `ok(k)`, tried upwards as a lazy quantifier tries its lengths. */
  function FirstFit(lo: nat, hi: nat, ok: nat -> bool): (r: Option<nat>)
    ensures r.Some? ==> lo <= r.value <= hi && ok(r.value)
    ensures r.Some? ==> forall k :: lo <= k < r.value ==> !ok(k)
    ensures r.None? ==> forall k :: lo <= k <= hi ==> !ok(k)
    decreases hi + 1 - lo
  {
    if lo > hi then None
    else if ok(lo) then Some(lo)
    else FirstFit(lo + 1, hi, ok)
  }

  /** The lazy `(.+?)`: the least title length after which the tail matches, if there is one. */
  function ShortestTitle(s: string): (r: Option<nat>)
    ensures r.Some? ==> TitleFits(s, r.value) && forall k :: 1 <= k < r.value ==> !TitleFits(s, k)
    ensures r.None? <==> forall k :: 1 <= k ==> !TitleFits(s, k)
  {
    var fits := (k: nat) => TitleFits(s, k);
    assert forall k :: fits(k) == TitleFits(s, k);
    var r := FirstFit(1, |s|, fits);
    ShortestTitleSearch(s, fits, r);
    r
  }

  /** What the search over `1..|s|` finds, read back as title lengths. */
  lemma ShortestTitleSearch(s: string, fits: nat -> bool, r: Option<nat>)
    requires forall k :: fits(k) == TitleFits(s, k)
    requires r == FirstFit(1, |s|, fits)
    ensures r.Some? ==> TitleFits(s, r.value) && forall k :: 1 <= k < r.value ==> !TitleFits(s, k)
    ensures r.None? <==> forall k :: 1 <= k ==> !TitleFits(s, k)
  {
    if r.Some? {
      assert fits(r.value);
      forall k | 1 <= k < r.value
        ensures !TitleFits(s, k)
      {
        assert !fits(k);
      }
    } else {
      forall k: nat | 1 <= k
        ensures !TitleFits(s, k)
      {
        if k <= |s| {
          assert !fits(k);
        }
      }
    }
  }

  /** A fitting length that no shorter one beats is the one chosen. */
  lemma ShortestTitleIs(s: string, n: nat)
    requires TitleFits(s, n) && forall k :: 1 <= k < n ==> !TitleFits(s, k)
    ensures ShortestTitle(s) == Some(n)
  {
    var r := ShortestTitle(s);
    assert r.Some?;
    assert TitleFits(s, r.value);
    assert r.value <= n;
    assert n <= r.value;
  }

  /**
    * After the dash at `i`, past any white space, `x` goes on with a character that no amount
    * token starts with, so no tail can start at that dash ("Auto-rickshaw", "Tea - snacks").
    */
  predicate DashKept(x: string, i: nat)
    requires i < |x|
  {
    var j := i + 1 + LeadingCount(x[i + 1..], IsSpace);
    j < |x| && !IsSign(x[j]) && !IsDigit(x[j])
  }

  predicate DashesKept(x: string) {
    forall i :: 0 <= i < |x| && x[i] == '-' ==> DashKept(x, i)
  }

  /** No amount token starts with a character other than a sign or a digit. */
  lemma NoAmountAt(t: string)
    requires |t| >= 1 && !IsSign(t[0]) && !IsDigit(t[0])
    ensures ScanAmount(t) == 0 && MatchFromAmount(t).None?
  {
    assert t[SignLength(t)..] == t;
  }

  /** No tail starts inside a text that does not end in white space and whose dashes are kept. */
  lemma NoTailInside(x: string, y: string)
    requires |x| >= 1 && !IsSpace(x[|x| - 1]) && DashesKept(x)
    ensures MatchTail(x + y).None?
  {
    var t := x + y;
    assert t[|x| - 1] == x[|x| - 1];
    LeadingCountBefore(t, IsSpace, |x| - 1);
    var l := LeadingCount(t, IsSpace);
    assert t[l] == x[l];
    if t[l] == '-' {
      KeptDashStops(x, y, l);
    }
  }

  /** After a kept dash of `x`, nothing that follows `x` lets an amount start. */
  lemma KeptDashStops(x: string, y: string, l: nat)
    requires l < |x| && x[l] == '-' && DashesKept(x)
    ensures MatchAfterDash((x + y)[l + 1..]).None?
  {
    assert DashKept(x, l);
    var rest := x[l + 1..];
    var g := LeadingCount(rest, IsSpace);
    assert (x + y)[l + 1..] == rest + y;
    LeadingCountPrefix(rest, y, IsSpace);
    assert (rest + y)[g..] == rest[g..] + y;
    assert rest[g] == x[l + 1 + g];
    NoAmountAt(rest[g..] + y);
  }

  // ---------------------------------------------------------------------------------------
  // Expense lines

  /**
    * `parseExpenseLine(line, date)`: the record for a line "<title> - <amount> (<modes>)" after its
    * bullet, or `None` (the source's `null`, after a console warning) when the line does not match.
    */
  function ParseExpenseLine(line: string, date: Option<string>): (r: Option<Expense>)
    ensures r.None? <==> ShortestTitle(CleanLine(line)).None?
    ensures r.Some? ==> |r.value.title| >= 1 && r.value.amount.Some? && r.value.tag.None?
    ensures r.Some? ==> r.value.date == date && r.value.originalLine == line && |r.value.modes| >= 1
    ensures r.Some? ==> || (r.value.kind == "+" && r.value.amount.value >= 0)
                        || (r.value.kind == "-" && r.value.amount.value <= 0)
    ensures r.Some? ==>
              var clean := CleanLine(line);
              var n := ShortestTitle(clean).value;
              exists tl :: WellFormedTail(tl) && clean[n..] == TailText(tl)
                && r.value == Expense(Trim(clean[..n]), Some(SignedCents(tl.amount)), date, Kind(tl.amount),
                                      ParsePaymentModes(tl.modeText), None, line)
  {
    var clean := CleanLine(line);
    match ShortestTitle(clean)
    case None => None
    case Some(n) =>
      var tail := MatchTail(clean[n..]).value;
      TitleNotBlank(clean, n);
      Some(Expense(Trim(clean[..n]), Some(SignedCents(tail.amount)), date, Kind(tail.amount),
                   ParsePaymentModes(tail.modeText), None, line))
  }

  /** The line a note shows for one expense: "• <title> - <amount> (<modes>)". */
  function WrittenLine(title: string, amount: string, modeText: string): string {
    "\U{2022} " + title + " - " + amount + " (" + modeText + ")"
  }

  /** A title the parser reads back whole: non-empty, on one line, trimmed, and with its dashes kept. */
  predicate IsPlainTitle(title: string) {
    |title| >= 1 && All(title, IsDotChar) && !IsSpace(title[0]) && !IsSpace(title[|title| - 1])
    && DashesKept(title)
  }

  /**
    * Any bullet, any white space after it, a plain title and any well-formed tail (with or
    * without spaces around the dash and before the parenthesis) parse back into that title and
    * the amount, type and modes the tail shows.
    */
  lemma ParseBulletLine(b: char, spaces: string, title: string, tl: Tail, date: Option<string>)
    requires IsBullet(b) && All(spaces, IsSpace) && IsPlainTitle(title) && WellFormedTail(tl)
    ensures var line := [b] + spaces + title + TailText(tl);
      ParseExpenseLine(line, date)
        == Some(Expense(title, Some(SignedCents(tl.amount)), date, Kind(tl.amount),
                        ParsePaymentModes(tl.modeText), None, line))
  {
    CleanBulletLine(b, spaces, title, tl);
    ParseCleanLine([b] + spaces + title + TailText(tl), title, tl, date);
  }

  /** Removing the bullet and trimming leaves the title followed by its tail. */
  lemma CleanBulletLine(b: char, spaces: string, title: string, tl: Tail)
    requires IsBullet(b) && All(spaces, IsSpace) && IsPlainTitle(title)
    ensures CleanLine([b] + spaces + title + TailText(tl)) == title + TailText(tl)
  {
    var rest := title + TailText(tl);
    assert [b] + spaces + title + TailText(tl) == [b] + spaces + rest;
    StripBulletOf(b, spaces, rest);
    assert rest[0] == title[0] && rest[|rest| - 1] == ')';
    TrimTrimmed(rest);
  }

  /** A line that cleans to a plain title followed by a well-formed tail gives that title and tail. */
  lemma ParseCleanLine(line: string, title: string, tl: Tail, date: Option<string>)
    requires IsPlainTitle(title) && WellFormedTail(tl) && CleanLine(line) == title + TailText(tl)
    ensures ParseExpenseLine(line, date)
              == Some(Expense(title, Some(SignedCents(tl.amount)), date, Kind(tl.amount),
                              ParsePaymentModes(tl.modeText), None, line))
  {
    var rest := title + TailText(tl);
    WrittenTitle(title, tl);
    assert rest[..|title|] == title && rest[|title|..] == TailText(tl);
    MatchTailComplete(tl);
    TrimTrimmed(title);
  }

  /** A written expense line is parsed back into the title, amount, type and modes it shows. */
  lemma ParseWrittenLine(title: string, amount: string, modeText: string, date: Option<string>)
    requires IsPlainTitle(title) && IsAmountToken(amount) && |modeText| >= 1 && ')' !in modeText
    ensures ParseExpenseLine(WrittenLine(title, amount, modeText), date)
              == Some(Expense(title, Some(SignedCents(amount)), date, Kind(amount),
                              ParsePaymentModes(modeText), None, WrittenLine(title, amount, modeText)))
  {
    var tl := Tail(" ", " ", amount, " ", modeText);
    assert WrittenLine(title, amount, modeText) == ['\U{2022}'] + " " + title + TailText(tl);
    ParseBulletLine('\U{2022}', " ", title, tl, date);
  }

  /** Cleaning a written line leaves the title followed by the tail. */
  lemma CleanWrittenLine(title: string, amount: string, modeText: string)
    requires IsPlainTitle(title)
    ensures CleanLine(WrittenLine(title, amount, modeText))
              == title + TailText(Tail(" ", " ", amount, " ", modeText))
  {
    var tl := Tail(" ", " ", amount, " ", modeText);
    assert WrittenLine(title, amount, modeText) == ['\U{2022}'] + " " + title + TailText(tl);
    CleanBulletLine('\U{2022}', " ", title, tl);
  }

  /** After a plain title, a well-formed tail makes the title the shortest fit. */
  lemma WrittenTitle(title: string, tl: Tail)
    requires IsPlainTitle(title) && WellFormedTail(tl)
    ensures ShortestTitle(title + TailText(tl)) == Some(|title|)
  {
    var rest := title + TailText(tl);
    assert rest[..|title|] == title && rest[|title|..] == TailText(tl);
    MatchTailComplete(tl);
    assert TitleFits(rest, |title|);
    forall k | 1 <= k < |title| ensures !TitleFits(rest, k) {
      NoShorterTitle(title, TailText(tl), k);
    }
    ShortestTitleIs(rest, |title|);
  }

  lemma NoShorterTitle(title: string, t: string, k: nat)
    requires IsPlainTitle(title) && 1 <= k < |title|
    ensures MatchTail((title + t)[k..]).None?
  {
    var x := title[k..];
    assert (title + t)[k..] == x + t;
    assert x[|x| - 1] == title[|title| - 1];
    assert DashesKept(x) by {
      forall i | 0 <= i < |x| && x[i] == '-' ensures DashKept(x, i) {
        assert x[i] == title[k + i] && DashKept(title, k + i);
        assert x[i + 1..] == title[k + i + 1..];
      }
    }
    NoTailInside(x, t);
  }
}
