/**
 * String helpers shared by every scraper and analyser: Python's `strip`,
 * `lower`/`upper`, `replace`, `count`, `in`, `startswith`, `split`, the digit
 * filter `''.join(filter(str.isdigit, s))`, and the regular-expression searches
 * `\d+` and `<keyword>\s+(\d+)` that the parsers use.
 *
 * Character classes are the ASCII ones: digits are '0'..'9', whitespace is the
 * six ASCII space characters, case mapping touches only 'A'..'Z' / 'a'..'z'.
 */
module Text {
  import opened Base

  // ---------------------------------------------------------------------------
  // Character classes

  predicate IsDigit(c: char) { '0' <= c <= '9' }

  /** Python's whitespace within ASCII: space, `\t`, `\n`, `\r`, `\v`, `\f` and the separators `\x1c` to `\x1f`. */
  predicate IsSpace(c: char) {
    c == ' ' || c == '\t' || c == '\n' || c == '\r' || c == '\U{000B}' || c == '\U{000C}'
    || c == '\U{001C}' || c == '\U{001D}' || c == '\U{001E}' || c == '\U{001F}'
  }

  predicate AllDigits(s: string) {
    forall i | 0 <= i < |s| :: IsDigit(s[i])
  }

  /** Python's `s.isdigit()`: non-empty and every character a digit. */
  predicate IsNumeral(s: string) {
    |s| > 0 && AllDigits(s)
  }

  /** True when `s.strip() == ""`, the scrapers' test for a missing value. */
  predicate IsBlank(s: string) {
    forall i | 0 <= i < |s| :: IsSpace(s[i])
  }

  function DigitValue(c: char): (d: nat)
    requires IsDigit(c)
    ensures d < 10
  {
    (c as int) - ('0' as int)
  }

  function DigitChar(d: nat): (c: char)
    requires d < 10
    ensures IsDigit(c) && DigitValue(c) == d
  {
    ((('0' as int) + d) as char)
  }

  // ---------------------------------------------------------------------------
  // Decimal numerals

  /** Python's `int(s)` on a string of ASCII digits. */
  function ToNat(s: string): nat
    requires AllDigits(s)
    decreases |s|
  {
    if |s| == 0 then 0 else 10 * ToNat(s[..|s| - 1]) + DigitValue(s[|s| - 1])
  }

  /** Python's `str(n)` for a non-negative integer. */
  function NatToString(n: nat): (r: string)
    ensures IsNumeral(r)
    ensures r[0] == '0' ==> n == 0
  {
    if n < 10 then [DigitChar(n)] else NatToString(n / 10) + [DigitChar(n % 10)]
  }

  /** `str(n)` in Python and `n.toString()` in JavaScript for an integer. */
  function IntText(n: int): string {
    if n >= 0 then NatToString(n) else "-" + NatToString(-n)
  }

  lemma {:induction false} ToNatOfNatToString(n: nat)
    ensures ToNat(NatToString(n)) == n
  {
    if n >= 10 {
      var s := NatToString(n);
      assert s[..|s| - 1] == NatToString(n / 10);
      ToNatOfNatToString(n / 10);
    }
  }

  // ---------------------------------------------------------------------------
  // Python string methods

  /** `s.lstrip()` */
  function LStrip(s: string): (r: string)
    ensures |r| <= |s| && r == s[|s| - |r|..]
    ensures IsBlank(s[..|s| - |r|])
    ensures |r| == 0 || !IsSpace(r[0])
  {
    if |s| > 0 && IsSpace(s[0]) then LStrip(s[1..]) else s
  }

  /** `s.rstrip()` */
  function RStrip(s: string): (r: string)
    ensures |r| <= |s| && r == s[..|r|]
    ensures IsBlank(s[|r|..])
    ensures |r| == 0 || !IsSpace(r[|r| - 1])
  {
    if |s| > 0 && IsSpace(s[|s| - 1]) then RStrip(s[..|s| - 1]) else s
  }

  /** `s.strip()` */
  function Strip(s: string): (r: string)
    ensures |r| <= |s|
    ensures |r| == 0 || (!IsSpace(r[0]) && !IsSpace(r[|r| - 1]))
  {
    RStrip(LStrip(s))
  }

  /** `s.strip() == ""` holds exactly for the blank strings. */
  lemma StripEmptyIffBlank(s: string)
    ensures Strip(s) == "" <==> IsBlank(s)
  {
    var l := LStrip(s);
    assert l[0..] == l;
    if |l| > 0 {
      assert s[|s| - |l|] == l[0];
    } else {
      assert s[..|s|] == s;
    }
  }

  /** A string that starts and ends with a non-space character is its own strip. */
  lemma StripTrimmed(s: string)
    requires |s| > 0 && !IsSpace(s[0]) && !IsSpace(s[|s| - 1])
    ensures Strip(s) == s
  {
  }

  function LowerChar(c: char): char {
    if 'A' <= c <= 'Z' then ((c as int) + 32) as char else c
  }

  function UpperChar(c: char): char {
    if 'a' <= c <= 'z' then ((c as int) - 32) as char else c
  }

  /** `s.lower()` */
  function Lower(s: string): (r: string)
    ensures |r| == |s|
    ensures forall i | 0 <= i < |s| :: r[i] == LowerChar(s[i])
  {
    seq(|s|, i requires 0 <= i < |s| => LowerChar(s[i]))
  }

  /** `s.upper()` */
  function Upper(s: string): (r: string)
    ensures |r| == |s|
    ensures forall i | 0 <= i < |s| :: r[i] == UpperChar(s[i])
  {
    seq(|s|, i requires 0 <= i < |s| => UpperChar(s[i]))
  }

  /** `s.count(c)` for a one-character `c`. */
  function Count(s: string, c: char): (n: nat)
    ensures n <= |s|
    ensures n == 0 <==> c !in s
  {
    if |s| == 0 then 0 else (if s[0] == c then 1 else 0) + Count(s[1..], c)
  }

  lemma {:induction false} CountAppend(a: string, b: string, c: char)
    ensures Count(a + b, c) == Count(a, c) + Count(b, c)
    decreases |a|
  {
    if |a| > 0 {
      assert (a + b)[1..] == a[1..] + b;
      CountAppend(a[1..], b, c);
    } else {
      assert a + b == b;
    }
  }

  /** `s.replace(c, "")` */
  function Remove(s: string, c: char): (r: string)
    ensures c !in r
    ensures |r| == |s| - Count(s, c)
  {
    if |s| == 0 then "" else (if s[0] == c then "" else [s[0]]) + Remove(s[1..], c)
  }

  /** `s.replace(a, b)` for one-character `a` and `b`. */
  function ReplaceChar(s: string, a: char, b: char): (r: string)
    ensures |r| == |s|
    ensures forall i | 0 <= i < |s| :: r[i] == (if s[i] == a then b else s[i])
  {
    seq(|s|, i requires 0 <= i < |s| => if s[i] == a then b else s[i])
  }

  /** `s.startswith(p)` */
  predicate StartsWith(s: string, p: string) {
    |p| <= |s| && s[..|p|] == p
  }

  /** `w in s` */
  predicate Contains(s: string, w: string)
    decreases |s|
  {
    StartsWith(s, w) || (|s| > 0 && Contains(s[1..], w))
  }

  /** `w in s` holds exactly when `w` occurs at some index of `s`. */
  lemma {:induction false} ContainsAt(s: string, w: string, i: nat)
    requires i + |w| <= |s| && s[i..i + |w|] == w
    ensures Contains(s, w)
    decreases i
  {
    if i > 0 {
      assert s[1..][i - 1..i - 1 + |w|] == w;
      ContainsAt(s[1..], w, i - 1);
    }
  }

  /** A word occurs in any text built around it. */
  lemma ContainsInside(a: string, w: string, b: string)
    ensures Contains(a + w + b, w)
  {
    var s := a + w + b;
    assert s[|a|..|a| + |w|] == w;
    ContainsAt(s, w, |a|);
  }

  lemma {:induction false} ContainsChar(s: string, c: char)
    ensures Contains(s, [c]) <==> c in s
    decreases |s|
  {
    if |s| > 0 {
      ContainsChar(s[1..], c);
      assert c in s <==> s[0] == c || c in s[1..];
    }
  }

  /** Every character of an occurring word occurs in the text. */
  lemma {:induction false} ContainsHasChars(s: string, w: string, j: nat)
    requires Contains(s, w) && j < |w|
    ensures w[j] in s
    decreases |s|
  {
    if StartsWith(s, w) {
      assert s[j] == w[j];
    } else {
      ContainsHasChars(s[1..], w, j);
      assert w[j] in s[1..];
      var i :| 0 <= i < |s| - 1 && s[1..][i] == w[j];
      assert s[i + 1] == w[j];
    }
  }

  /** A word with a character the text lacks does not occur in it. */
  lemma MissingChar(s: string, w: string, j: nat)
    requires j < |w| && w[j] !in s
    ensures !Contains(s, w)
  {
    if Contains(s, w) {
      ContainsHasChars(s, w, j);
    }
  }

  /** `s.find(w)`, as an `Option`: the first index at which `w` occurs. */
  function Find(s: string, w: string): (r: Option<nat>)
    ensures r.Some? <==> Contains(s, w)
    ensures r.Some? ==> r.value + |w| <= |s| && s[r.value..r.value + |w|] == w
    ensures r.Some? ==> forall j | 0 <= j < r.value :: !StartsWith(s[j..], w)
    decreases |s|
  {
    if StartsWith(s, w) then Some(0)
    else if |s| == 0 then None
    else
      match Find(s[1..], w)
      case None => None
      case Some(i) =>
        assert forall j | 1 <= j < i + 1 :: s[j..] == s[1..][j - 1..];
        Some(i + 1)
  }

  // ---------------------------------------------------------------------------
  // split / join

  /** `s.split(sep)` for a non-empty separator. */
  function Split(s: string, sep: string): (parts: seq<string>)
    requires |sep| > 0
    ensures |parts| >= 1
    decreases |s|
  {
    var found := Find(s, sep);
    if found.None? then [s]
    else [s[..found.value]] + Split(s[found.value + |sep|..], sep)
  }

  /** `s.split(sep)` has a single part exactly when `sep` does not occur in `s`. */
  lemma SplitSingle(s: string, sep: string)
    requires |sep| > 0
    ensures |Split(s, sep)| == 1 <==> !Contains(s, sep)
  {
  }

  /** `sep.join(parts)` */
  function Join(parts: seq<string>, sep: string): string
    decreases |parts|
  {
    if |parts| == 0 then ""
    else if |parts| == 1 then parts[0]
    else parts[0] + sep + Join(parts[1..], sep)
  }

  /** Splitting and joining back with the same separator gives the original text. */
  lemma {:induction false} JoinSplit(s: string, sep: string)
    requires |sep| > 0
    ensures Join(Split(s, sep), sep) == s
    decreases |s|
  {
    match Find(s, sep)
    case None =>
    case Some(i) =>
      var rest := s[i + |sep|..];
      JoinSplit(rest, sep);
      SplitAt(s, sep, i, Split(rest, sep));
      AroundSep(s, sep, i);
      JoinSplitStep(s, sep, s[..i], rest, Split(rest, sep));
  }

  /** Where the separator first occurs, `split` cuts off the first part and goes on after the separator. */
  lemma SplitAt(s: string, sep: string, i: nat, tail: seq<string>)
    requires |sep| > 0 && Find(s, sep) == Some(i) && tail == Split(s[i + |sep|..], sep)
    ensures Split(s, sep) == [s[..i]] + tail
  {
  }

  /** The text is the part before the separator's occurrence, the separator, and the rest. */
  lemma AroundSep(s: string, sep: string, i: nat)
    requires i + |sep| <= |s| && s[i..i + |sep|] == sep
    ensures s == s[..i] + sep + s[i + |sep|..]
  {
    assert s == s[..i] + s[i..i + |sep|] + s[i + |sep|..];
  }

  lemma JoinSplitStep(s: string, sep: string, head: string, rest: string, tail: seq<string>)
    requires |sep| > 0 && |tail| >= 1
    requires s == head + sep + rest && Split(s, sep) == [head] + tail && Join(tail, sep) == rest
    ensures Join(Split(s, sep), sep) == s
  {
    JoinCons(head, tail, sep);
  }

  lemma JoinCons(head: string, tail: seq<string>, sep: string)
    requires |tail| >= 1
    ensures Join([head] + tail, sep) == head + sep + Join(tail, sep)
  {
    assert ([head] + tail)[1..] == tail;
  }

  /** The first occurrence of a one-character separator is right after a prefix that lacks it. */
  lemma {:induction false} FindChar(a: string, c: char, b: string)
    requires c !in a
    ensures Find(a + [c] + b, [c]) == Some(|a|)
    decreases |a|
  {
    var s := a + [c] + b;
    if |a| == 0 {
      assert s[..1] == [c];
    } else {
      assert s[..1] != [c] by { assert s[0] == a[0]; }
      assert s[1..] == a[1..] + [c] + b;
      FindChar(a[1..], c, b);
    }
  }

  /** The first occurrence of a separator is right after a prefix that lacks its first character. */
  lemma {:induction false} FindSep(a: string, sep: string, b: string)
    requires |sep| > 0 && sep[0] !in a
    ensures Find(a + sep + b, sep) == Some(|a|)
    decreases |a|
  {
    var s := a + sep + b;
    if |a| == 0 {
      assert s[..|sep|] == sep;
    } else {
      assert !StartsWith(s, sep) by { assert s[0] == a[0]; }
      assert s[1..] == a[1..] + sep + b;
      FindSep(a[1..], sep, b);
    }
  }

  /** Splitting peels off the text before the first separator when that text lacks the separator's first character. */
  lemma SplitSep(a: string, sep: string, b: string)
    requires |sep| > 0 && sep[0] !in a
    ensures Split(a + sep + b, sep) == [a] + Split(b, sep)
  {
    var s := a + sep + b;
    FindSep(a, sep, b);
    assert s[..|a|] == a;
    assert s[|a| + |sep|..] == b;
  }

  /** Text lacking the separator's first character splits into itself. */
  lemma SplitWithout(s: string, sep: string)
    requires |sep| > 0 && sep[0] !in s
    ensures Split(s, sep) == [s]
  {
    MissingChar(s, sep, 0);
  }

  /** A string without the separator splits into itself. */
  lemma SplitNoSep(s: string, c: char)
    requires c !in s
    ensures Split(s, [c]) == [s]
  {
    ContainsChar(s, c);
  }

  /** Splitting at a one-character separator peels off the text before its first occurrence. */
  lemma SplitChar(a: string, c: char, b: string)
    requires c !in a
    ensures Split(a + [c] + b, [c]) == [a] + Split(b, [c])
  {
    var s := a + [c] + b;
    FindChar(a, c, b);
    assert s[..|a|] == a;
    assert s[|a| + 1..] == b;
  }

  /** Joining parts that do not contain a one-character separator and splitting again gives the parts back. */
  lemma {:induction false} SplitJoin(parts: seq<string>, c: char)
    requires |parts| >= 1
    requires forall k | 0 <= k < |parts| :: c !in parts[k]
    ensures Split(Join(parts, [c]), [c]) == parts
    decreases |parts|
  {
    if |parts| == 1 {
      SplitNoSep(parts[0], c);
    } else {
      SplitJoin(parts[1..], c);
      SplitChar(parts[0], c, Join(parts[1..], [c]));
      SplitJoinStep(parts, c);
    }
  }

  lemma SplitJoinStep(parts: seq<string>, c: char)
    requires |parts| >= 2
    requires Split(parts[0] + [c] + Join(parts[1..], [c]), [c]) == [parts[0]] + Split(Join(parts[1..], [c]), [c])
    requires Split(Join(parts[1..], [c]), [c]) == parts[1..]
    ensures Split(Join(parts, [c]), [c]) == parts
  {
    assert Join(parts, [c]) == parts[0] + [c] + Join(parts[1..], [c]);
    assert [parts[0]] + parts[1..] == parts;
  }

  lemma {:induction false} RemoveAppend(a: string, b: string, c: char)
    ensures Remove(a + b, c) == Remove(a, c) + Remove(b, c)
    decreases |a|
  {
    var ab := a + b;
    if |a| > 0 {
      var tail := a[1..];
      assert ab[0] == a[0] && ab[1..] == tail + b;
      RemoveAppend(tail, b, c);
    } else {
      assert ab == b;
    }
  }

  /** Removing a separator from a joined list glues the parts together. */
  lemma {:induction false} RemoveJoin(parts: seq<string>, c: char)
    requires forall k | 0 <= k < |parts| :: c !in parts[k]
    ensures Remove(Join(parts, [c]), c) == Concat(parts)
    decreases |parts|
  {
    if |parts| == 1 {
      RemoveAbsent(parts[0], c);
    } else if |parts| > 1 {
      RemoveJoin(parts[1..], c);
      RemoveAbsent(parts[0], c);
      RemoveAppend(parts[0] + [c], Join(parts[1..], [c]), c);
      RemoveAppend(parts[0], [c], c);
      assert Remove([c], c) == "" by { assert [c][1..] == ""; }
    }
  }

  lemma {:induction false} RemoveAbsent(s: string, c: char)
    requires c !in s
    ensures Remove(s, c) == s
    decreases |s|
  {
    if |s| > 0 {
      assert c !in s[1..] by { assert forall i | 0 <= i < |s| - 1 :: s[1..][i] == s[i + 1]; }
      RemoveAbsent(s[1..], c);
    }
  }

  /** Concatenation of a list of strings, `''.join(parts)`. */
  function Concat(parts: seq<string>): string
    decreases |parts|
  {
    if |parts| == 0 then "" else parts[0] + Concat(parts[1..])
  }

  // ---------------------------------------------------------------------------
  // Digit extraction and `\d+` searches

  /** `''.join(filter(str.isdigit, s))` */
  function Digits(s: string): (r: string)
    ensures AllDigits(r)
    ensures |r| <= |s|
    ensures r == "" <==> forall i | 0 <= i < |s| :: !IsDigit(s[i])
    decreases |s|
  {
    if |s| == 0 then ""
    else if IsDigit(s[0]) then [s[0]] + Digits(s[1..])
    else Digits(s[1..])
  }

  /** The longest prefix of `s` made of digits. */
  function LeadingDigits(s: string): (r: string)
    ensures IsNumeral(r) || r == ""
    ensures StartsWith(s, r)
    ensures |r| == |s| || !IsDigit(s[|r|])
    decreases |s|
  {
    if |s| > 0 && IsDigit(s[0]) then [s[0]] + LeadingDigits(s[1..]) else ""
  }

  /** Number of leading whitespace characters. */
  function LeadingSpaces(s: string): (k: nat)
    ensures k <= |s|
    ensures IsBlank(s[..k])
    ensures k == |s| || !IsSpace(s[k])
    decreases |s|
  {
    if |s| > 0 && IsSpace(s[0]) then 1 + LeadingSpaces(s[1..]) else 0
  }

  /** `re.search(r'\d+', s).group()`: the leftmost maximal run of digits. */
  function FirstDigitRun(s: string): (r: Option<string>)
    ensures r.None? <==> forall i | 0 <= i < |s| :: !IsDigit(s[i])
    ensures r.Some? ==> IsNumeral(r.value)
    decreases |s|
  {
    if |s| == 0 then None
    else if IsDigit(s[0]) then Some(LeadingDigits(s))
    else FirstDigitRun(s[1..])
  }

  /** A numeral is its own first digit run. */
  lemma {:induction false} NumeralIsFirstRun(s: string)
    requires IsNumeral(s)
    ensures FirstDigitRun(s) == Some(s)
  {
    AllDigitsLead(s);
  }

  lemma {:induction false} AllDigitsLead(s: string)
    requires AllDigits(s)
    ensures LeadingDigits(s) == s
    decreases |s|
  {
    if |s| > 0 {
      assert AllDigits(s[1..]) by {
        assert forall i | 0 <= i < |s[1..]| :: s[1..][i] == s[i + 1];
      }
      AllDigitsLead(s[1..]);
      assert s == [s[0]] + s[1..];
    }
  }

  /** `re.findall(r'\d+', s)`: all maximal runs of digits, left to right. */
  function DigitRuns(s: string): (runs: seq<string>)
    ensures forall k | 0 <= k < |runs| :: IsNumeral(runs[k])
    decreases |s|
  {
    if |s| == 0 then []
    else if IsDigit(s[0]) then
      var d := LeadingDigits(s);
      [d] + DigitRuns(s[|d|..])
    else DigitRuns(s[1..])
  }

  /** `re.search` finds the first of the runs `re.findall` lists. */
  lemma {:induction false} FirstRunIsFirstOfRuns(s: string)
    ensures FirstDigitRun(s) == (if DigitRuns(s) == [] then None else Some(DigitRuns(s)[0]))
    decreases |s|
  {
    if |s| > 0 && !IsDigit(s[0]) {
      FirstRunIsFirstOfRuns(s[1..]);
    }
  }

  lemma {:induction false} LeadingDigitsSplit(s: string)
    ensures Digits(s) == LeadingDigits(s) + Digits(s[|LeadingDigits(s)|..])
    decreases |s|
  {
    if |s| > 0 && IsDigit(s[0]) {
      LeadingDigitsSplit(s[1..]);
      var d := LeadingDigits(s[1..]);
      assert s[1..][|d|..] == s[|d| + 1..];
    }
  }

  /** The runs that `re.findall(r'\d+')` returns, glued together, are exactly the digit filter. */
  lemma {:induction false} RunsConcatToDigits(s: string)
    ensures Concat(DigitRuns(s)) == Digits(s)
    decreases |s|
  {
    if |s| > 0 {
      if IsDigit(s[0]) {
        var d := LeadingDigits(s);
        RunsConcatToDigits(s[|d|..]);
        LeadingDigitsSplit(s);
      } else {
        RunsConcatToDigits(s[1..]);
      }
    }
  }

  /** `re.match(kw + r'\s+(\d+)', s).group(1)`: the match anchored at the start of `s`. */
  function NumberAfterAt(s: string, kw: string): (r: Option<string>)
    ensures r.Some? ==> IsNumeral(r.value)
  {
    if !StartsWith(s, kw) then None
    else
      var rest := s[|kw|..];
      var k := LeadingSpaces(rest);
      var d := LeadingDigits(rest[k..]);
      if k == 0 || d == "" then None else Some(d)
  }

  /** `re.search(kw + r'\s+(\d+)', s).group(1)`: the leftmost match anywhere in `s`. */
  function SearchNumberAfter(s: string, kw: string): (r: Option<string>)
    ensures r.Some? ==> IsNumeral(r.value)
    decreases |s|
  {
    match NumberAfterAt(s, kw)
    case Some(d) => Some(d)
    case None => if |s| == 0 then None else SearchNumberAfter(s[1..], kw)
  }

  /** A keyword search only succeeds on text that contains the keyword. */
  lemma {:induction false} SearchNeedsKeyword(s: string, kw: string)
    requires SearchNumberAfter(s, kw).Some?
    ensures Contains(s, kw)
    decreases |s|
  {
    if NumberAfterAt(s, kw).None? {
      SearchNeedsKeyword(s[1..], kw);
    }
  }
}
