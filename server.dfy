/**
  * The logic of server.js that is not HTTP plumbing: `extractDatabaseId`, which finds the
  * database id in a Notion URL, and the bookkeeping of the `/api/upload-expenses` handler, which
  * uploads the records one by one and tallies the outcomes.
  *
  * Each id pattern, `/notion\.so\/.*?(<id>)/i`, is matched as `String.prototype.match` does
  * without the `g` flag: the leftmost position where `notion.so/` starts (in any ASCII case), and
  * from there the shortest lazy run of non-line-terminator characters before an id.
  */
module Server {
  import opened Wrappers
  import opened Text
  import opened ExpenseLines

  // ---------------------------------------------------------------------------------------
  // extractDatabaseId

  /** The host part of the patterns, `notion\.so\/`, lower-cased. */
  const Host: string := "notion.so/"

  /** The two id shapes, in the order the source tries them. */
  datatype IdShape = Compact | Dashed

  /** The length of an id of the shape, dashes included. */
  function IdLength(shape: IdShape): nat {
    match shape
    case Compact => 32
    case Dashed => 36
  }

  /** The positions of the dashes in `[a-f0-9]{8}-[a-f0-9]{4}-[a-f0-9]{4}-[a-f0-9]{4}-[a-f0-9]{12}`. */
  predicate IsDashPosition(i: nat) {
    i == 8 || i == 13 || i == 18 || i == 23
  }

  /** `s` has the shape: hex digits (either case, under `/i`), with dashes exactly where `Dashed` puts them. */
  predicate IsId(s: string, shape: IdShape) {
    && |s| == IdLength(shape)
    && forall i :: 0 <= i < |s| ==>
         if shape == Dashed && IsDashPosition(i) then s[i] == '-' else IsHexDigit(s[i])
  }

  /** `notion.so/` starts at position `p` of `url`, in any ASCII case. */
  predicate HostAt(url: string, p: nat) {
    p + |Host| <= |url| && Lower(url[p..p + |Host|]) == Host
  }

  /** A match of the pattern that starts with the host at `p` and captures the id at `q`. */
  predicate Candidate(url: string, shape: IdShape, p: nat, q: nat) {
    && HostAt(url, p) && p + |Host| <= q && q + IdLength(shape) <= |url|
    && All(url[p + |Host|..q], IsDotChar) && IsId(url[q..q + IdLength(shape)], shape)
  }

  /** The lazy `.*?`: the least id position from `q` on, for the host at `p`. */
  function IdAfter(url: string, shape: IdShape, p: nat, q: nat): (r: Option<nat>)
    requires HostAt(url, p) && p + |Host| <= q <= |url| && All(url[p + |Host|..q], IsDotChar)
    ensures r.Some? ==> q <= r.value && Candidate(url, shape, p, r.value)
    ensures r.Some? ==> forall q': nat :: q <= q' < r.value ==> !Candidate(url, shape, p, q')
    ensures r.None? ==> forall q': nat :: q <= q' ==> !Candidate(url, shape, p, q')
    decreases |url| - q
  {
    if q + IdLength(shape) <= |url| && IsId(url[q..q + IdLength(shape)], shape) then Some(q)
    else if q == |url| then None
    else if !IsDotChar(url[q]) then
      TerminatorBlocks(url, shape, p, q);
      None
    else
      assert !Candidate(url, shape, p, q);
      assert url[p + |Host|..q + 1] == url[p + |Host|..q] + [url[q]];
      IdAfter(url, shape, p, q + 1)
  }

  /** `.*?` cannot cross a line terminator: no id after it belongs to the host at `p`. */
  lemma TerminatorBlocks(url: string, shape: IdShape, p: nat, q: nat)
    requires p + |Host| <= q < |url| && !IsDotChar(url[q])
    ensures forall q': nat :: q < q' ==> !Candidate(url, shape, p, q')
  {
    forall q': nat | q < q'
      ensures !Candidate(url, shape, p, q')
    {
      if q' <= |url| {
        assert url[p + |Host|..q'][q - p - |Host|] == url[q];
      }
    }
  }

  /** The leftmost match from `p` on: the host position and the id position. */
  function FirstMatch(url: string, shape: IdShape, p: nat): (r: Option<(nat, nat)>)
    requires p <= |url|
    ensures r.Some? ==> p <= r.value.0 && Candidate(url, shape, r.value.0, r.value.1)
    ensures r.Some? ==> forall p': nat, q': nat :: p <= p' < r.value.0 ==> !Candidate(url, shape, p', q')
    ensures r.Some? ==> forall q': nat :: q' < r.value.1 ==> !Candidate(url, shape, r.value.0, q')
    ensures r.None? ==> forall p': nat, q': nat :: p <= p' ==> !Candidate(url, shape, p', q')
    decreases |url| - p
  {
    if p == |url| then None
    else if HostAt(url, p) then
      match IdAfter(url, shape, p, p + |Host|)
      case Some(q) => Some((p, q))
      case None => FirstMatch(url, shape, p + 1)
    else FirstMatch(url, shape, p + 1)
  }

  /** `replace(/-/g, '')` */
  function RemoveDashes(s: string): (r: string)
    ensures '-' !in r && |r| <= |s|
    decreases |s|
  {
    if |s| == 0 then ""
    else if s[0] == '-' then RemoveDashes(s[1..])
    else [s[0]] + RemoveDashes(s[1..])
  }

  /** Removing the dashes of an id of either shape leaves its 32 hex digits. */
  lemma {:induction false} RemoveDashesOfId(s: string, shape: IdShape)
    requires IsId(s, shape)
    ensures |RemoveDashes(s)| == 32 && All(RemoveDashes(s), IsHexDigit)
    ensures shape == Compact ==> RemoveDashes(s) == s
    ensures shape == Dashed ==> RemoveDashes(s) == s[..8] + s[9..13] + s[14..18] + s[19..23] + s[24..]
  {
    if shape == Compact {
      NoDashesKept(s);
    } else {
      DashesCounted(s, 0);
      DashedGroups(s);
    }
  }

  /** Removing the dashes of a concatenation removes them from each part. */
  lemma {:induction false} RemoveDashesAppend(a: string, b: string)
    ensures RemoveDashes(a + b) == RemoveDashes(a) + RemoveDashes(b)
    decreases |a|
  {
    if |a| > 0 {
      assert (a + b)[0] == a[0] && (a + b)[1..] == a[1..] + b;
      RemoveDashesAppend(a[1..], b);
    } else {
      assert a + b == b;
    }
  }

  /** A dash after a run of hex digits is dropped and the digits are kept. */
  lemma DropDash(t: string, k: nat)
    requires k < |t| && t[k] == '-' && All(t[..k], IsHexDigit)
    ensures RemoveDashes(t) == t[..k] + RemoveDashes(t[k + 1..])
  {
    assert t == t[..k] + ([t[k]] + t[k + 1..]);
    RemoveDashesAppend(t[..k], [t[k]] + t[k + 1..]);
    NoDashesKept(t[..k]);
    assert ([t[k]] + t[k + 1..])[1..] == t[k + 1..];
  }

  /** `DropDash` for the part of `s` from `i` on, with the dash at position `j` of `s`. */
  lemma DropDashAt(s: string, i: nat, j: nat)
    requires i <= j < |s| && s[j] == '-' && forall k :: i <= k < j ==> IsHexDigit(s[k])
    ensures RemoveDashes(s[i..]) == s[i..j] + RemoveDashes(s[j + 1..])
  {
    var t := s[i..];
    assert t[..j - i] == s[i..j];
    assert t[j - i + 1..] == s[j + 1..];
    DropDash(t, j - i);
  }

  /** A dashed id loses exactly its four dashes; its five groups of hex digits stay, in order. */
  lemma DashedGroups(s: string)
    requires IsId(s, Dashed)
    ensures RemoveDashes(s) == s[..8] + s[9..13] + s[14..18] + s[19..23] + s[24..]
  {
    assert s[0..] == s;
    DropDashAt(s, 0, 8);
    DropDashAt(s, 9, 13);
    DropDashAt(s, 14, 18);
    DropDashAt(s, 19, 23);
    NoDashesKept(s[24..]);
  }

  /** A text with no dash is left as it is. */
  lemma {:induction false} NoDashesKept(s: string)
    requires All(s, IsHexDigit)
    ensures RemoveDashes(s) == s
    decreases |s|
  {
    if |s| > 0 {
      NoDashesKept(s[1..]);
    }
  }

  /** From position `k` of a dashed id on, removing the dashes leaves only its remaining hex digits. */
  lemma {:induction false} DashesCounted(s: string, k: nat)
    requires IsId(s, Dashed) && k <= 36
    ensures |RemoveDashes(s[k..])| == 32 - k + DashesBefore(k)
    ensures All(RemoveDashes(s[k..]), IsHexDigit)
    decreases 36 - k
  {
    if k < 36 {
      DashesCounted(s, k + 1);
      assert s[k..][1..] == s[k + 1..];
    }
  }

  /** The number of dash positions below `k`. */
  function DashesBefore(k: nat): nat {
    (if k > 8 then 1 else 0) + (if k > 13 then 1 else 0) + (if k > 18 then 1 else 0) + (if k > 23 then 1 else 0)
  }

  /** The error `extractDatabaseId` throws. */
  const InvalidUrl: string := "Invalid Notion database URL. Please check the URL format."

  /** `match[1].replace(/-/g, '')` for the leftmost match of the pattern for `shape`, if it matches. */
  function IdOf(url: string, shape: IdShape): (r: Option<string>)
    ensures r.Some? ==> |r.value| == 32 && All(r.value, IsHexDigit) && '-' !in r.value
    ensures r.None? <==> forall p: nat, q: nat :: !Candidate(url, shape, p, q)
  {
    match FirstMatch(url, shape, 0)
    case Some((_, q)) =>
      RemoveDashesOfId(url[q..q + IdLength(shape)], shape);
      Some(RemoveDashes(url[q..q + IdLength(shape)]))
    case None => None
  }

  /**
    * `extractDatabaseId(url)`: the id of the leftmost match of the compact pattern if it matches
    * at all, else that of the dashed pattern with its dashes removed; otherwise the error.
    */
  function ExtractDatabaseId(url: string): (r: Result<string>)
    ensures r.Ok? ==> |r.value| == 32 && All(r.value, IsHexDigit) && '-' !in r.value
    ensures r.Err? <==> forall shape, p: nat, q: nat :: !Candidate(url, shape, p, q)
    ensures r.Err? ==> r.message == InvalidUrl
  {
    match IdOf(url, Compact)
    case Some(id) => Ok(id)
    case None =>
      match IdOf(url, Dashed)
      case Some(id) => Ok(id)
      case None => Err(InvalidUrl)
  }

  /** The leftmost match, with its lazy id position, gives the id. */
  lemma IdOfMatch(url: string, shape: IdShape, p: nat, q: nat)
    requires Candidate(url, shape, p, q)
    requires forall p': nat, q': nat :: p' < p ==> !Candidate(url, shape, p', q')
    requires forall q': nat :: q' < q ==> !Candidate(url, shape, p, q')
    ensures IdOf(url, shape) == Some(RemoveDashes(url[q..q + IdLength(shape)]))
  {
    FirstMatchIs(url, shape, p, q);
  }

  /**
    * The compact pattern is tried first: whenever it matches, its leftmost match gives the id,
    * even where a dashed id occurs earlier in the URL.
    */
  lemma CompactFirst(url: string, p: nat, q: nat)
    requires Candidate(url, Compact, p, q)
    requires forall p': nat, q': nat :: p' < p ==> !Candidate(url, Compact, p', q')
    requires forall q': nat :: q' < q ==> !Candidate(url, Compact, p, q')
    ensures ExtractDatabaseId(url) == Ok(url[q..q + 32])
  {
    IdOfMatch(url, Compact, p, q);
    NoDashesKept(url[q..q + 32]);
  }

  /** Without a compact id, the leftmost dashed match gives the id, dashes removed. */
  lemma DashedSecond(url: string, p: nat, q: nat)
    requires forall p': nat, q': nat :: !Candidate(url, Compact, p', q')
    requires Candidate(url, Dashed, p, q)
    requires forall p': nat, q': nat :: p' < p ==> !Candidate(url, Dashed, p', q')
    requires forall q': nat :: q' < q ==> !Candidate(url, Dashed, p, q')
    ensures ExtractDatabaseId(url) == Ok(RemoveDashes(url[q..q + 36]))
  {
    assert IdOf(url, Compact).None?;
    IdOfMatch(url, Dashed, p, q);
  }

  /** The leftmost match, with its lazy id position, is the one the search finds. */
  lemma FirstMatchIs(url: string, shape: IdShape, p: nat, q: nat)
    requires Candidate(url, shape, p, q)
    requires forall p': nat, q': nat :: p' < p ==> !Candidate(url, shape, p', q')
    requires forall q': nat :: q' < q ==> !Candidate(url, shape, p, q')
    ensures FirstMatch(url, shape, 0) == Some((p, q))
  {
    var r := FirstMatch(url, shape, 0);
    assert r.Some?;
    var (p1, q1) := r.value;
    assert Candidate(url, shape, p1, q1);
    assert p <= p1 && p1 <= p;
    assert Candidate(url, shape, p, q1);
    assert q <= q1 && q1 <= q;
  }

  /** The URL of a database as Notion shares it: the compact id right after the host. */
  lemma CompactUrl(id: string, rest: string)
    requires IsId(id, Compact)
    ensures ExtractDatabaseId(Host + id + rest) == Ok(id)
  {
    var url := Host + id + rest;
    assert url[0..10] == Host;
    assert url[10..10] == [];
    assert url[10..42] == id;
    CompactFirst(url, 0, 10);
  }

  /** No 32 consecutive characters of a dashed id are all hex digits. */
  lemma DashedHoldsNoCompact(id: string, k: nat)
    requires IsId(id, Dashed) && k + 32 <= |id|
    ensures !IsId(id[k..k + 32], Compact)
  {
    assert id[k..k + 32][23 - k] == id[23];
  }

  /** A URL made of the host and a dashed id gives that id without its dashes. */
  lemma {:induction false} DashedUrl(id: string)
    requires IsId(id, Dashed)
    ensures ExtractDatabaseId(Host + id) == Ok(RemoveDashes(id))
  {
    var url := Host + id;
    forall p: nat, q: nat | Candidate(url, Compact, p, q)
      ensures false
    {
      assert url[q..q + 32] == id[q - 10..q + 22];
      DashedHoldsNoCompact(id, q - 10);
    }
    assert url[0..10] == Host;
    assert url[10..10] == [];
    assert url[10..46] == id;
    DashedSecond(url, 0, 10);
  }

  // ---------------------------------------------------------------------------------------
  // The upload handler's bookkeeping

  /** What `notionClient.addExpense(expense)` did: resolved, or threw with a message. */
  datatype AddOutcome = Added | Failed(message: string)

  /** `{ success, expense, error }`, one entry of `results`. */
  datatype UploadResult = UploadResult(success: bool, expense: string, error: Option<string>)

  /** The handler's JSON reply, or the HTTP status and error it reports. */
  datatype UploadResponse =
    | Uploaded(message: string, results: seq<UploadResult>, total: nat, successes: nat, errors: nat)
    | Rejected(status: nat, error: string)

  const MissingFields: string := "Notion token, database URL, and expenses are required"

  /** The number of the first `n` uploads that succeeded. */
  function Successes(outcome: nat -> AddOutcome, n: nat): (s: nat)
    ensures s <= n
  {
    if n == 0 then 0 else Successes(outcome, n - 1) + (if outcome(n - 1).Added? then 1 else 0)
  }

  /** The result entry for one expense and the outcome of its upload. */
  function ResultFor(expense: Expense, outcome: AddOutcome): (r: UploadResult)
    ensures r.expense == expense.title
    ensures r.success <==> outcome.Added?
    ensures r.error.Some? <==> outcome.Failed?
    ensures outcome.Failed? ==> r.error.value == outcome.message
  {
    match outcome
    case Added => UploadResult(true, expense.title, None)
    case Failed(message) => UploadResult(false, expense.title, Some(message))
  }

  /** The three fixed pieces of the upload message around its two counts. */
  const SummaryHead := "Successfully uploaded "
  const SummaryMiddle := " expenses. "
  const SummaryTail := " failed."

  /**
    * `Successfully uploaded ${successCount} expenses. ${errorCount} failed.`: both counts are
    * read back from the decimal digits between the fixed pieces.
    */
  function Summary(successes: nat, errors: nat): (message: string)
    ensures var n := |NatToString(successes)|; var k := |NatToString(errors)|;
      && |message| == |SummaryHead| + n + |SummaryMiddle| + k + |SummaryTail|
      && message[..|SummaryHead|] == SummaryHead
      && message[|SummaryHead| + n..|SummaryHead| + n + |SummaryMiddle|] == SummaryMiddle
      && message[|message| - |SummaryTail|..] == SummaryTail
    ensures Denotes(message[|SummaryHead|..|SummaryHead| + |NatToString(successes)|], successes)
    ensures Denotes(message[|message| - |SummaryTail| - |NatToString(errors)|..|message| - |SummaryTail|], errors)
  {
    var message := SummaryHead + NatToString(successes) + SummaryMiddle + NatToString(errors) + SummaryTail;
    FiveParts(SummaryHead, NatToString(successes), SummaryMiddle, NatToString(errors), SummaryTail);
    assert Denotes(NatToString(successes), successes) && Denotes(NatToString(errors), errors);
    message
  }

  /**
    * The `/api/upload-expenses` handler after the body is read: a missing token or URL is
    * rejected with 400, an unusable URL is reported with 500 and the extractor's error (the
    * handler's catch-all), and otherwise every
    * expense is uploaded in turn, `outcome(i)` standing for what the Notion call did with the
    * `i`-th, a failure never stopping the later ones.
    */
  method UploadExpenses(notionToken: string, databaseUrl: string, expenses: seq<Expense>,
                        outcome: nat -> AddOutcome) returns (response: UploadResponse)
    ensures notionToken == "" || databaseUrl == "" ==> response == Rejected(400, MissingFields)
    ensures notionToken != "" && databaseUrl != "" && ExtractDatabaseId(databaseUrl).Err? ==>
              response == Rejected(500, ExtractDatabaseId(databaseUrl).message)
    ensures response.Uploaded? <==>
              notionToken != "" && databaseUrl != "" && ExtractDatabaseId(databaseUrl).Ok?
    ensures response.Uploaded? ==>
              && |response.results| == |expenses| == response.total
              && response.successes + response.errors == response.total
              && response.successes == Successes(outcome, |expenses|)
              && response.message == Summary(response.successes, response.errors)
              && forall i :: 0 <= i < |expenses| ==>
                   && response.results[i].expense == expenses[i].title
                   && (response.results[i].success <==> outcome(i).Added?)
                   && response.results[i] == ResultFor(expenses[i], outcome(i))
  {
    if notionToken == "" || databaseUrl == "" {
      return Rejected(400, MissingFields);
    }
    var databaseId := ExtractDatabaseId(databaseUrl);
    if databaseId.Err? {
      return Rejected(500, databaseId.message);
    }
    var results, successCount, errorCount := UploadEach(expenses, outcome);
    response := Uploaded(Summary(successCount, errorCount), results, |expenses|, successCount, errorCount);
  }

  /** The loop over the expenses: one result per expense, in order, and the two tallies. */
  method UploadEach(expenses: seq<Expense>, outcome: nat -> AddOutcome)
    returns (results: seq<UploadResult>, successCount: nat, errorCount: nat)
    ensures |results| == |expenses|
    ensures forall i :: 0 <= i < |expenses| ==> results[i] == ResultFor(expenses[i], outcome(i))
    ensures successCount == Successes(outcome, |expenses|)
    ensures successCount + errorCount == |expenses|
  {
    results := [];
    successCount := 0;
    errorCount := 0;
    for i := 0 to |expenses|
      invariant |results| == i
      invariant forall j :: 0 <= j < i ==> results[j] == ResultFor(expenses[j], outcome(j))
      invariant successCount == Successes(outcome, i)
      invariant successCount + errorCount == i
    {
      match outcome(i)
      case Added =>
        results := results + [UploadResult(true, expenses[i].title, None)];
        successCount := successCount + 1;
      case Failed(message) =>
        results := results + [UploadResult(false, expenses[i].title, Some(message))];
        errorCount := errorCount + 1;
    }
  }
}
