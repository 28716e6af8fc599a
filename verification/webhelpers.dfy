/**
 * The shared helpers of the web front end: the thousands separator that the
 * pages use for view, like and follower counts, the date formatter's empty
 * case, and the loading state of a button.
 *
 * The separator is modelled the way the front end computes it, as a global
 * replacement of the regular expression `\B(?=(\d{3})+(?!\d))` by ",", and
 * is then shown to agree with the digit grouping of the Grouping module.
 */
module WebHelpers {
  import opened Base
  import opened Text
  import opened Grouping

  // ---------------------------------------------------------------------------
  // formatNumber

  /** JavaScript's `\w`: ASCII letters, digits and '_'. */
  predicate IsWordChar(c: char) {
    IsDigit(c) || 'a' <= c <= 'z' || 'A' <= c <= 'Z' || c == '_'
  }

  /** Whether the character before position `p` is a word character (none before position 0). */
  predicate WordBefore(s: string, p: nat)
    requires p <= |s|
  {
    p > 0 && IsWordChar(s[p - 1])
  }

  /** Whether the character at position `p` is a word character (none at the end). */
  predicate WordAt(s: string, p: nat)
    requires p <= |s|
  {
    p < |s| && IsWordChar(s[p])
  }

  /** `\B` at position `p`: both neighbours are word characters or neither is. */
  predicate NonBoundary(s: string, p: nat)
    requires p <= |s|
  {
    WordBefore(s, p) == WordAt(s, p)
  }

  /** `k` groups of three digits at the start of `t`, followed by the end or a non-digit. */
  predicate Triples(t: string, k: nat) {
    3 * k <= |t| && AllDigits(t[..3 * k]) && (3 * k == |t| || !IsDigit(t[3 * k]))
  }

  /** The lookahead `(?=(\d{3})+(?!\d))` at the start of `t`. */
  predicate ThreesAhead(t: string) {
    exists k: nat | 1 <= k <= |t| :: Triples(t, k)
  }

  /** Whether the pattern matches (with an empty match) at position `p`. */
  predicate CommaAt(s: string, p: nat)
    requires p <= |s|
  {
    NonBoundary(s, p) && ThreesAhead(s[p..])
  }

  /**
   * The output of the replacement for the first `n` positions: at each
   * position a "," where the pattern matches, then the character there.
   */
  function Formatted(s: string, n: nat): (r: string)
    requires n <= |s|
    ensures |r| >= n
  {
    if n == 0 then ""
    else Formatted(s, n - 1) + (if CommaAt(s, n - 1) then "," else "") + [s[n - 1]]
  }

  /** `s.replace(/\B(?=(\d{3})+(?!\d))/g, ",")`, including a match at the very end. */
  function InsertSeparators(s: string): string {
    Formatted(s, |s|) + (if CommaAt(s, |s|) then "," else "")
  }

  /** `formatNumber(num)` for an integer count. */
  function FormatNumber(n: int): string {
    InsertSeparators(IntText(n))
  }

  /** The lookahead holds inside a run of digits exactly where a multiple of three digits remains. */
  lemma ThreesAheadDigits(t: string)
    requires AllDigits(t)
    ensures ThreesAhead(t) <==> |t| > 0 && |t| % 3 == 0
  {
    if ThreesAhead(t) {
      var k: nat :| 1 <= k <= |t| && Triples(t, k);
    }
    if |t| > 0 && |t| % 3 == 0 {
      assert t[..3 * (|t| / 3)] == t;
      assert Triples(t, |t| / 3);
    }
  }

  /** The lookahead fails on text that does not start with a digit. */
  lemma ThreesAheadNeedsDigit(t: string)
    requires |t| == 0 || !IsDigit(t[0])
    ensures !ThreesAhead(t)
  {
    forall k: nat | 1 <= k <= |t|
      ensures !Triples(t, k)
    {
      if 3 * k <= |t| {
        assert t[..3 * k][0] == t[0];
      }
    }
  }

  /** In a run of digits the pattern matches strictly inside, where a multiple of three digits remains. */
  lemma CommaInDigits(d: string, p: nat)
    requires AllDigits(d) && p <= |d|
    ensures CommaAt(d, p) <==> 0 < p < |d| && (|d| - p) % 3 == 0
  {
    var t := d[p..];
    assert AllDigits(t) by { assert forall i | 0 <= i < |t| :: t[i] == d[p + i]; }
    ThreesAheadDigits(t);
    if 0 < p < |d| {
      assert IsWordChar(d[p - 1]) && IsWordChar(d[p]);
    } else if p == 0 && |d| > 0 {
      assert IsWordChar(d[0]);
    }
  }

  /** Without a match among the first `n` positions, they are copied unchanged. */
  lemma {:induction false} FormattedPlain(d: string, n: nat)
    requires AllDigits(d) && n <= |d| <= 3
    ensures Formatted(d, n) == d[..n]
  {
    if n > 0 {
      FormattedPlain(d, n - 1);
      CommaInDigits(d, n - 1);
      assert d[..n] == d[..n - 1] + [d[n - 1]];
    }
  }

  /** Positions before the last three digits are treated alike in `d` and in `d` without them. */
  lemma {:induction false} FormattedPrefix(d: string, n: nat)
    requires AllDigits(d) && |d| > 3 && n <= |d| - 3
    ensures Formatted(d, n) == Formatted(d[..|d| - 3], n)
  {
    if n > 0 {
      var p := d[..|d| - 3];
      assert AllDigits(p) by { assert forall i | 0 <= i < |p| :: p[i] == d[i]; }
      FormattedPrefix(d, n - 1);
      CommaInDigits(d, n - 1);
      CommaInDigits(p, n - 1);
      assert p[n - 1] == d[n - 1];
    }
  }

  /** The last three digits of a longer run come after a separator. */
  lemma FormattedLastGroup(d: string)
    requires AllDigits(d) && |d| > 3
    ensures Formatted(d, |d|) == Formatted(d, |d| - 3) + "," + d[|d| - 3..]
  {
    var m := |d|;
    DigitSeparator(d, m - 3, 3);
    DigitPlain(d, m - 2, 2);
    DigitPlain(d, m - 1, 1);
    LastGroupText(Formatted(d, m - 3), Formatted(d, m - 2), Formatted(d, m - 1), Formatted(d, m), d, m - 3);
  }

  lemma LastGroupText(a: string, b: string, c: string, e: string, d: string, i: nat)
    requires i + 3 == |d|
    requires b == a + "," + [d[i]] && c == b + [d[i + 1]] && e == c + [d[i + 2]]
    ensures e == a + "," + d[i..]
  {
    assert d[i..] == [d[i]] + [d[i + 1]] + [d[i + 2]];
  }

  /** A separator goes before a digit that a positive multiple of three digits starts. */
  lemma DigitSeparator(d: string, n: nat, rest: nat)
    requires AllDigits(d) && 0 < n < |d| && rest == |d| - n && rest % 3 == 0
    ensures Formatted(d, n + 1) == Formatted(d, n) + "," + [d[n]]
  {
    CommaInDigits(d, n);
    FormattedStep(d, n);
  }

  /** Any other digit is copied on its own. */
  lemma DigitPlain(d: string, n: nat, rest: nat)
    requires AllDigits(d) && n < |d| && rest == |d| - n && (n == 0 || rest % 3 != 0)
    ensures Formatted(d, n + 1) == Formatted(d, n) + [d[n]]
  {
    CommaInDigits(d, n);
    FormattedStep(d, n);
  }

  /** One more position: the separator if the pattern matches there, then the character. */
  lemma FormattedStep(s: string, n: nat)
    requires n < |s|
    ensures Formatted(s, n + 1) == Formatted(s, n) + Separator(CommaAt(s, n)) + [s[n]]
  {
  }

  function Separator(matched: bool): string {
    if matched then "," else ""
  }

  /** On a run of digits the replacement inserts exactly the thousands separators. */
  lemma {:induction false} InsertSeparatorsGroups(d: string)
    requires AllDigits(d)
    ensures InsertSeparators(d) == Group(d, ',')
    decreases |d|
  {
    NoTrailingSeparator(d);
    if |d| <= 3 {
      FormattedPlain(d, |d|);
      assert d[..|d|] == d;
    } else {
      var p, x := d[..|d| - 3], d[|d| - 3..];
      assert AllDigits(p) by { assert forall i | 0 <= i < |p| :: p[i] == d[i]; }
      InsertSeparatorsGroups(p);
      NoTrailingSeparator(p);
      FormattedPrefix(d, |d| - 3);
      FormattedLastGroup(d);
      assert Groups(d) == Groups(p) + [x];
      JoinSnoc(Groups(p), x, [',']);
    }
  }

  /** The pattern never matches at the end of a run of digits. */
  lemma NoTrailingSeparator(d: string)
    requires AllDigits(d)
    ensures InsertSeparators(d) == Formatted(d, |d|)
  {
    CommaInDigits(d, |d|);
  }

  /** A leading minus sign is copied and the digits after it are grouped as on their own. */
  lemma {:induction false} FormattedAfterMinus(d: string, n: nat)
    requires IsNumeral(d) && n <= |d|
    ensures Formatted("-" + d, n + 1) == "-" + Formatted(d, n)
  {
    var s := "-" + d;
    if n == 0 {
      MinusAlone(d);
    } else {
      FormattedAfterMinus(d, n - 1);
      CommaAfterMinus(d, n);
      FormattedStep(s, n);
      FormattedStep(d, n - 1);
      assert s[n] == d[n - 1];
      MinusStepText(Formatted(s, n), Formatted(d, n - 1), Formatted(s, n + 1), Formatted(d, n),
                    Separator(CommaAt(s, n)) + [s[n]], Separator(CommaAt(d, n - 1)) + [d[n - 1]]);
    }
  }

  /** No separator goes before the minus sign. */
  lemma MinusAlone(d: string)
    ensures Formatted("-" + d, 1) == "-"
  {
    var s := "-" + d;
    assert s[0..] == s;
    ThreesAheadNeedsDigit(s);
  }

  /** Behind a leading minus sign the pattern matches where it matches in the digits alone. */
  lemma CommaAfterMinus(d: string, n: nat)
    requires IsNumeral(d) && 1 <= n <= |d|
    ensures CommaAt("-" + d, n) == CommaAt(d, n - 1)
  {
    var s := "-" + d;
    assert s[n..] == d[n - 1..];
    assert s[n] == d[n - 1];
    assert n == 1 ==> !IsWordChar(s[0]) && IsWordChar(d[0]);
    assert n > 1 ==> s[n - 1] == d[n - 2];
  }

  lemma MinusStepText(fs: string, fd: string, fs': string, fd': string, ps: string, pd: string)
    requires fs == "-" + fd && fs' == fs + ps && fd' == fd + pd && ps == pd
    ensures fs' == "-" + fd'
  {
  }

  lemma InsertSeparatorsNegative(d: string)
    requires IsNumeral(d)
    ensures InsertSeparators("-" + d) == "-" + InsertSeparators(d)
  {
    FormattedAfterMinus(d, |d|);
    CommaInDigits(d, |d|);
    var s := "-" + d;
    assert s[|s|..] == "";
    ThreesAheadNeedsDigit(s[|s|..]);
  }

  /** `formatNumber` groups the digits of a count and keeps a leading minus sign. */
  lemma FormatNumberGroups(n: int)
    ensures n >= 0 ==> FormatNumber(n) == Group(NatToString(n), ',')
    ensures n < 0 ==> FormatNumber(n) == "-" + Group(NatToString(-n), ',')
  {
    if n >= 0 {
      InsertSeparatorsGroups(NatToString(n));
    } else {
      InsertSeparatorsNegative(NatToString(-n));
      InsertSeparatorsGroups(NatToString(-n));
    }
  }

  /** Deleting the commas from `formatNumber(n)` gives `n.toString()`. */
  lemma FormatNumberRemoveCommas(n: int)
    ensures Remove(FormatNumber(n), ',') == IntText(n)
  {
    FormatNumberGroups(n);
    if n >= 0 {
      RemoveSeparators(NatToString(n), ',');
    } else {
      var d := NatToString(-n);
      RemoveSeparators(d, ',');
      RemoveAppend("-", Group(d, ','), ',');
    }
  }

  /**
   * The shape of `formatNumber(n)` for a count: split at the commas it gives
   * a first group of one to three digits and further groups of exactly three,
   * and it neither starts nor ends with a comma.
   */
  lemma FormatNumberShape(n: nat)
    ensures var gs := Split(FormatNumber(n), ",");
            |gs| >= 1 && 1 <= |gs[0]| <= 3 &&
            (forall k | 1 <= k < |gs| :: |gs[k]| == 3 && AllDigits(gs[k])) &&
            AllDigits(gs[0])
    ensures FormatNumber(n)[0] != ',' && FormatNumber(n)[|FormatNumber(n)| - 1] != ','
  {
    var d := NatToString(n);
    FormatNumberGroups(n);
    assert ',' !in d by { assert forall i | 0 <= i < |d| :: IsDigit(d[i]); }
    SplitGroups(d, ',');
    GroupsAreDigits(d);
    GroupedFirst(d, ',');
    GroupedLast(d, ',');
  }

  /** Counts below a thousand are printed as they are. */
  lemma FormatNumberSmall(n: nat)
    requires n <= 999
    ensures FormatNumber(n) == NatToString(n)
  {
    NatToStringShort(n);
    FormatNumberGroups(n);
    GroupShort(NatToString(n), ',');
  }

  lemma NatToStringShort(n: nat)
    requires n <= 999
    ensures |NatToString(n)| <= 3
  {
    if n >= 10 {
      if n >= 100 {
        assert NatToString(n / 10 / 10) == [DigitChar(n / 10 / 10)];
      }
    }
  }

  // ---------------------------------------------------------------------------
  // formatDate

  /**
   * `formatDate(dateString)`: a missing value (`null` or `undefined`, here
   * `None`) or the empty string gives the empty string; any other value is
   * handed to the browser's locale formatting, which is a parameter here.
   */
  function FormatDate(value: Option<string>, localeFormat: string -> string): (r: string)
    ensures value.None? || value == Some("") ==> r == ""
    ensures value.Some? && value.value != "" ==> r == localeFormat(value.value)
  {
    match value
    case None => ""
    case Some(s) => if s == "" then "" else localeFormat(s)
  }

  // ---------------------------------------------------------------------------
  // toggleButtonLoading

  /** The button state that the helper touches, and the rest of the element. */
  datatype Button<Rest> = Button(disabled: bool, innerHtml: string, rest: Rest)

  const Spinner: string :=
    "<span class=\"spinner-border spinner-border-sm\" role=\"status\" aria-hidden=\"true\"></span>"

  /** The content of a loading button: the spinner, then the "processing" caption. */
  const LoadingHtml: string := Spinner + " Đang xử lý..."

  /** `toggleButtonLoading(button, isLoading, originalText)`. */
  function ToggleButtonLoading<Rest>(button: Button<Rest>, isLoading: bool, originalText: string): (r: Button<Rest>)
    ensures r.rest == button.rest
    ensures r.disabled <==> isLoading
    ensures isLoading ==> r.innerHtml == LoadingHtml
    ensures !isLoading ==> r.innerHtml == originalText
  {
    if isLoading then button.(disabled := true, innerHtml := LoadingHtml)
    else button.(disabled := false, innerHtml := originalText)
  }

  /**
   * Turning loading off with the text the button had restores the button:
   * whatever happened while it was loading, it ends enabled with exactly that text.
   */
  lemma ToggleRestores<Rest>(button: Button<Rest>, text: string)
    requires !button.disabled && button.innerHtml == text
    ensures ToggleButtonLoading(ToggleButtonLoading(button, true, text), false, text) == button
  {
  }
}
