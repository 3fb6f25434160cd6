/**
  * The string primitives the JavaScript source relies on: the white space that `\s` matches
  * and `String.prototype.trim` removes, `split` and its inverse, ASCII case folding, and the
  * decimal digit strings used for days, years and amounts.
  */
module Text {

  /** JavaScript's WhiteSpace and LineTerminator characters: what `\s` matches and `trim()` removes. */
  predicate IsSpace(c: char) {
    || c == ' ' || c == '\t' || c == '\n' || c == '\r' || c == '\U{B}' || c == '\U{C}'
    || c == '\U{A0}' || c == '\U{1680}' || ('\U{2000}' <= c <= '\U{200A}')
    || c == '\U{2028}' || c == '\U{2029}' || c == '\U{202F}' || c == '\U{205F}'
    || c == '\U{3000}' || c == '\U{FEFF}'
  }

  /** The characters a regular-expression `.` does not match. */
  predicate IsLineTerminator(c: char) {
    c == '\n' || c == '\r' || c == '\U{2028}' || c == '\U{2029}'
  }

  /** `.`: any character but a line terminator. */
  predicate IsDotChar(c: char) {
    !IsLineTerminator(c)
  }

  /** `[A-Za-z]` */
  predicate IsAsciiLetter(c: char) {
    ('A' <= c <= 'Z') || ('a' <= c <= 'z')
  }

  /** `\d` */
  predicate IsDigit(c: char) {
    '0' <= c <= '9'
  }

  /** `[a-f0-9]` under the case-insensitive flag. */
  predicate IsHexDigit(c: char) {
    IsDigit(c) || ('a' <= c <= 'f') || ('A' <= c <= 'F')
  }

  /** Case folding as a case-insensitive regular expression applies it to ASCII text. */
  function ToLower(c: char): (d: char)
    ensures IsAsciiLetter(c) ==> 'a' <= d <= 'z'
    ensures !IsAsciiLetter(c) ==> d == c
    ensures 'a' <= c <= 'z' ==> d == c
  {
    if 'A' <= c <= 'Z' then (c as int + 32) as char else c
  }

  function Lower(s: string): (r: string)
    ensures |r| == |s|
    ensures forall i :: 0 <= i < |s| ==> r[i] == ToLower(s[i])
  {
    seq(|s|, i requires 0 <= i < |s| => ToLower(s[i]))
  }

  /** Every character of `s` satisfies `p`. */
  predicate All(s: string, p: char -> bool) {
    forall i :: 0 <= i < |s| ==> p(s[i])
  }

  /** The length of the longest prefix of `s` whose characters all satisfy `p`. */
  function LeadingCount(s: string, p: char -> bool): (n: nat)
    ensures n <= |s|
    ensures All(s[..n], p)
    ensures n < |s| ==> !p(s[n])
    decreases |s|
  {
    if |s| == 0 || !p(s[0]) then 0 else 1 + LeadingCount(s[1..], p)
  }

  /** The length of the longest suffix of `s` whose characters all satisfy `p`. */
  function TrailingCount(s: string, p: char -> bool): (n: nat)
    ensures n <= |s|
    ensures All(s[|s| - n..], p)
    ensures n < |s| ==> !p(s[|s| - n - 1])
    decreases |s|
  {
    if |s| == 0 || !p(s[|s| - 1]) then 0
    else
      var t := s[..|s| - 1];
      var k := TrailingCount(t, p);
      assert forall i :: |s| - (k + 1) <= i < |s| - 1 ==> s[i] == t[i];
      1 + k
  }

  /** A run of `p`-characters followed by a character that is not one is measured exactly. */
  lemma {:induction false} LeadingCountOf(a: string, b: string, p: char -> bool)
    requires All(a, p)
    requires |b| == 0 || !p(b[0])
    ensures LeadingCount(a + b, p) == |a|
    decreases |a|
  {
    if |a| == 0 {
      assert a + b == b;
    } else {
      assert (a + b)[0] == a[0];
      assert (a + b)[1..] == a[1..] + b;
      LeadingCountOf(a[1..], b, p);
    }
  }

  /** The run stops at or before any character that fails `p`. */
  lemma {:induction false} LeadingCountBefore(s: string, p: char -> bool, j: nat)
    requires j < |s| && !p(s[j])
    ensures LeadingCount(s, p) <= j
    decreases j
  {
    if j > 0 && p(s[0]) {
      LeadingCountBefore(s[1..], p, j - 1);
    }
  }

  /** A run that stops inside `a` is not lengthened by what follows `a`. */
  lemma {:induction false} LeadingCountPrefix(a: string, b: string, p: char -> bool)
    requires LeadingCount(a, p) < |a|
    ensures LeadingCount(a + b, p) == LeadingCount(a, p)
    decreases |a|
  {
    assert (a + b)[0] == a[0];
    if p(a[0]) {
      assert (a + b)[1..] == a[1..] + b;
      LeadingCountPrefix(a[1..], b, p);
    }
  }

  /** The mirror image of `LeadingCountOf`, for a run at the end. */
  lemma {:induction false} TrailingCountOf(a: string, b: string, p: char -> bool)
    requires All(b, p)
    requires |a| == 0 || !p(a[|a| - 1])
    ensures TrailingCount(a + b, p) == |b|
    decreases |b|
  {
    if |b| == 0 {
      assert a + b == a;
    } else {
      var s := a + b;
      assert s[|s| - 1] == b[|b| - 1];
      assert s[..|s| - 1] == a + b[..|b| - 1];
      TrailingCountOf(a, b[..|b| - 1], p);
    }
  }

  /** `String.prototype.trim`: drops leading and trailing white space. */
  function Trim(s: string): (r: string)
    ensures |r| <= |s|
    ensures |r| == 0 <==> All(s, IsSpace)
    ensures |r| > 0 ==> !IsSpace(r[0]) && !IsSpace(r[|r| - 1])
  {
    var lo := LeadingCount(s, IsSpace);
    var rest := s[lo..];
    var hi := |s| - TrailingCount(rest, IsSpace);
    if lo == |s| then
      assert s[..lo] == s;
      ""
    else
      assert s[lo] == rest[0];
      assert !All(s, IsSpace) by { assert !IsSpace(s[lo]); }
      s[lo..hi]
  }

  /** Trim removes exactly white-space padding: it is the inverse of padding a trimmed text. */
  lemma TrimPadded(a: string, x: string, b: string)
    requires All(a, IsSpace) && All(b, IsSpace)
    requires |x| == 0 || (!IsSpace(x[0]) && !IsSpace(x[|x| - 1]))
    ensures Trim(a + x + b) == x
  {
    if |x| == 0 {
      TrimBlank(a, x, b);
    } else {
      TrimAround(a, x, b);
    }
  }

  /** White space alone trims to nothing. */
  lemma TrimBlank(a: string, x: string, b: string)
    requires All(a, IsSpace) && All(b, IsSpace) && |x| == 0
    ensures Trim(a + x + b) == x
  {
    var s := a + x + b;
    forall i | 0 <= i < |s|
      ensures IsSpace(s[i])
    {
      if i < |a| { assert s[i] == a[i]; } else { assert s[i] == b[i - |a|]; }
    }
  }

  /** Padding around a text that starts and ends with a non-space is exactly what trimming drops. */
  lemma TrimAround(a: string, x: string, b: string)
    requires All(a, IsSpace) && All(b, IsSpace)
    requires |x| > 0 && !IsSpace(x[0]) && !IsSpace(x[|x| - 1])
    ensures Trim(a + x + b) == x
  {
    var s := a + x + b;
    assert LeadingCount(s, IsSpace) == |a| by {
      assert s == a + (x + b);
      LeadingCountOf(a, x + b, IsSpace);
    }
    assert s[|a|..] == x + b;
    assert TrailingCount(x + b, IsSpace) == |b| by {
      TrailingCountOf(x, b, IsSpace);
    }
    assert s[|a|..|s| - |b|] == x;
  }

  /** Trimming an already trimmed text changes nothing. */
  lemma TrimTrimmed(x: string)
    requires |x| == 0 || (!IsSpace(x[0]) && !IsSpace(x[|x| - 1]))
    ensures Trim(x) == x
  {
    TrimPadded("", x, "");
    assert "" + x + "" == x;
  }

  /** Concatenation is associative (stated apart so that callers need not reprove it in a crowded context). */
  lemma AppendAssociates<T>(a: seq<T>, b: seq<T>, c: seq<T>)
    ensures a + (b + c) == (a + b) + c
  {
  }

  /** Each part of a five-part concatenation is read back by slicing. */
  lemma FiveParts<T>(a: seq<T>, b: seq<T>, c: seq<T>, d: seq<T>, e: seq<T>)
    ensures var m := a + b + c + d + e;
      && |m| == |a| + |b| + |c| + |d| + |e|
      && m[..|a|] == a && m[|a|..|a| + |b|] == b && m[|a| + |b|..|a| + |b| + |c|] == c
      && m[|m| - |e| - |d|..|m| - |e|] == d && m[|m| - |e|..] == e
  {
    var m := a + b + c + d + e;
    assert m == (a + b + c) + (d + e);
    assert (a + b + c)[..|a|] == a;
    assert (a + b + c)[|a|..|a| + |b|] == b;
  }

  /** The prefix of a sequence as long as the sequence is the sequence. */
  lemma WholeSlice<T>(s: seq<T>)
    ensures s[..|s|] == s
  {
  }

  /** The pieces of a text split at one character can be read back by slicing. */
  lemma SlicesAround(a: string, c: char, b: string)
    ensures (a + [c] + b)[|a|] == c
    ensures (a + [c] + b)[..|a|] == a && (a + [c] + b)[|a| + 1..] == b
  {
  }

  /** A non-empty sequence is its head followed by its tail. */
  lemma HeadTail<T>(s: seq<T>)
    requires |s| > 0
    ensures [s[0]] + s[1..] == s
  {
  }

  /** A text is the concatenation of its first `g` characters, the next `k`, and the rest. */
  lemma SliceThree(t: string, g: nat, k: nat)
    requires g + k <= |t|
    ensures t == t[..g] + t[g..][..k] + t[g..][k..]
  {
    assert t[g..] == t[g..][..k] + t[g..][k..];
    assert t == t[..g] + t[g..];
  }

  /** `String.prototype.split` with a one-character separator: never empty, no part holds `sep`. */
  function Split(s: string, sep: char): (parts: seq<string>)
    ensures |parts| >= 1
    ensures forall i :: 0 <= i < |parts| ==> sep !in parts[i]
    decreases |s|
  {
    if |s| == 0 then [""]
    else
      var rest := Split(s[1..], sep);
      if s[0] == sep then [""] + rest
      else [[s[0]] + rest[0]] + rest[1..]
  }

  /** `Array.prototype.join`: the parts with `sep` between consecutive ones. */
  function Join(parts: seq<string>, sep: string): string
    requires |parts| >= 1
  {
    if |parts| == 1 then parts[0] else parts[0] + sep + Join(parts[1..], sep)
  }

  /** Joining the parts of a split gives the text back. */
  lemma {:induction false} JoinSplit(s: string, sep: char)
    ensures Join(Split(s, sep), [sep]) == s
  {
    if |s| > 0 {
      var rest := Split(s[1..], sep);
      JoinSplit(s[1..], sep);
      if s[0] == sep {
        assert Split(s, sep) == [""] + rest;
        assert (["" ] + rest)[1..] == rest;
      } else {
        var parts := [[s[0]] + rest[0]] + rest[1..];
        assert Split(s, sep) == parts;
        if |rest| == 1 {
          assert Join(rest, [sep]) == rest[0];
        } else {
          assert Join(rest, [sep]) == rest[0] + [sep] + Join(rest[1..], [sep]);
          assert parts[1..] == rest[1..];
        }
      }
    }
  }

  /** A text without the separator is split into itself alone. */
  lemma {:induction false} SplitWhole(p: string, sep: char)
    requires sep !in p
    ensures Split(p, sep) == [p]
  {
    if |p| > 0 {
      SplitWhole(p[1..], sep);
      assert [p[0]] + p[1..] == p;
    }
  }

  /** Splitting `p + sep + rest`, where `p` holds no separator, yields `p` then the parts of `rest`. */
  lemma {:induction false} SplitCons(p: string, sep: char, rest: string)
    requires sep !in p
    ensures Split(p + [sep] + rest, sep) == [p] + Split(rest, sep)
  {
    if |p| == 0 {
      assert p + [sep] + rest == [sep] + rest;
      assert ([sep] + rest)[1..] == rest;
    } else {
      var s := p + [sep] + rest;
      assert s[1..] == p[1..] + [sep] + rest;
      SplitCons(p[1..], sep, rest);
      assert [p[0]] + p[1..] == p;
    }
  }

  /** Splitting a join of separator-free parts gives the parts back. */
  lemma {:induction false} SplitJoin(parts: seq<string>, sep: char)
    requires |parts| >= 1
    requires forall i :: 0 <= i < |parts| ==> sep !in parts[i]
    ensures Split(Join(parts, [sep]), sep) == parts
  {
    if |parts| == 1 {
      SplitWhole(parts[0], sep);
    } else {
      SplitJoin(parts[1..], sep);
      SplitCons(parts[0], sep, Join(parts[1..], [sep]));
      assert [parts[0]] + parts[1..] == parts;
    }
  }

  function DigitValue(c: char): nat
    requires IsDigit(c)
  {
    (c as int) - ('0' as int)
  }

  function DigitChar(d: nat): (c: char)
    requires d < 10
    ensures IsDigit(c) && DigitValue(c) == d
  {
    ((d + '0' as int) as char)
  }

  /** The number a string of decimal digits denotes (`parseInt` of `\d+`). */
  function DigitsValue(s: string): nat
    requires All(s, IsDigit)
    decreases |s|
  {
    if |s| == 0 then 0
    else
      assert All(s[..|s| - 1], IsDigit);
      DigitsValue(s[..|s| - 1]) * 10 + DigitValue(s[|s| - 1])
  }

  /** `digits` is a run of decimal digits that denotes `n`. */
  predicate Denotes(digits: string, n: nat) {
    All(digits, IsDigit) && DigitsValue(digits) == n
  }

  /** The value of a two-digit string. */
  lemma DigitsValueTwo(s: string)
    requires |s| == 2 && All(s, IsDigit)
    ensures DigitsValue(s) == DigitValue(s[0]) * 10 + DigitValue(s[1])
  {
    var init := s[..1];
    assert init[..0] == [];
    assert DigitsValue(init) == DigitValue(s[0]);
  }

  /** The decimal form of `n`, without leading zeros; `DigitsValue` reads it back as `n`. */
  function NatToString(n: nat): (s: string)
    ensures |s| >= 1 && All(s, IsDigit)
    ensures DigitsValue(s) == n
    ensures |s| == 1 || s[0] != '0'
    ensures n < 10 ==> |s| == 1
    ensures n < 100 ==> |s| <= 2
    ensures n < 1000 ==> |s| <= 3
    ensures n < 10000 ==> |s| <= 4
    decreases n
  {
    if n < 10 then [DigitChar(n)]
    else
      var prefix := NatToString(n / 10);
      AppendDigit(prefix, n);
      prefix + [DigitChar(n % 10)]
  }

  /** Writing the last digit of `n` after the decimal form of `n / 10` gives the decimal form of `n`. */
  lemma AppendDigit(prefix: string, n: nat)
    requires n >= 10
    requires |prefix| >= 1 && All(prefix, IsDigit) && DigitsValue(prefix) == n / 10
    requires |prefix| == 1 || prefix[0] != '0'
    requires n / 10 < 10 ==> |prefix| == 1
    requires n / 10 < 100 ==> |prefix| <= 2
    requires n / 10 < 1000 ==> |prefix| <= 3
    ensures var s := prefix + [DigitChar(n % 10)];
      && |s| >= 2 && All(s, IsDigit) && DigitsValue(s) == n && s[0] != '0'
      && (n < 100 ==> |s| <= 2) && (n < 1000 ==> |s| <= 3) && (n < 10000 ==> |s| <= 4)
  {
    var s := prefix + [DigitChar(n % 10)];
    assert s[..|s| - 1] == prefix;
    assert n / 10 >= 1;
    assert DigitsValue(s) == (n / 10) * 10 + n % 10;
  }

  /** A run of `k` zero digits. */
  function Zeros(k: nat): (z: string)
    ensures |z| == k && All(z, IsDigit)
  {
    seq(k, _ => '0')
  }

  /** Leading zeros do not change the value of a digit string. */
  lemma {:induction false} ZerosValue(k: nat, d: string)
    requires All(d, IsDigit)
    ensures All(Zeros(k) + d, IsDigit)
    ensures DigitsValue(Zeros(k) + d) == DigitsValue(d)
    decreases |d|, k
  {
    var s := Zeros(k) + d;
    assert All(s, IsDigit) by {
      forall i | 0 <= i < |s| ensures IsDigit(s[i]) {
        if i < k { assert s[i] == Zeros(k)[i]; } else { assert s[i] == d[i - k]; }
      }
    }
    if |d| > 0 {
      assert s[..|s| - 1] == Zeros(k) + d[..|d| - 1];
      ZerosValue(k, d[..|d| - 1]);
    } else if k > 0 {
      assert s == Zeros(k - 1) + ['0'];
      assert s[..|s| - 1] == Zeros(k - 1) + "";
      ZerosValue(k - 1, "");
    }
  }

  /** `n` in decimal, left-padded with zeros to at least `width` digits (moment's `zeroFill`). */
  function PadNumber(n: nat, width: nat): (s: string)
    ensures |s| == if |NatToString(n)| >= width then |NatToString(n)| else width
    ensures All(s, IsDigit) && DigitsValue(s) == n
  {
    var d := NatToString(n);
    if |d| >= width then d
    else
      ZerosValue(width - |d|, d);
      Zeros(width - |d|) + d
  }
}
