/**
 * The scrapers' text-to-number parsers. Each site's crawler carries its own
 * variant, and the variants deliberately differ in how they read separators
 * and the K / M suffixes:
 *
 *  - `ExtractNumberKM`: the Truyentranh3q and TruyenQQ crawlers (and, through
 *    `ExtractNumberValue`, the NetTruyen script and the TruyenQQ rater).
 *    K / M scale the mantissa; without a suffix, two or more dots are
 *    thousands separators and commas are always dropped.
 *  - `ParseNumberManhuavn`: ',' becomes '.', the first suffix found applies,
 *    everything but digits and '.' is dropped.
 *  - `MaxDigitRun`: the Manhuavn crawler's `extract_number`, the largest run
 *    of digits.
 *  - `StripSeparators`: the NetTruyen crawler, every '.' and ',' deleted.
 *  - `NormalizerExtract` / `ManhuavnRaterExtract`: K / M scaling or the
 *    concatenated digits.
 *  - `ChapterNumber`: "Chapter N", then "Chương N", then any digit run.
 */
module NumberParsing {
  import opened Base
  import opened Text
  import opened PyNum
  import opened Grouping

  // ---------------------------------------------------------------------------
  // K / M parser of the Truyentranh3q and TruyenQQ crawlers

  /** The number part of a suffixed value: one '.' is a decimal point, otherwise '.' and ',' are dropped. */
  function SuffixMantissa(numPart: string, m: nat): int {
    if Count(numPart, '.') == 1 then ScaledOrZero(numPart, m)
    else ScaledOrZero(Remove(Remove(numPart, '.'), ','), m)
  }

  /** `extract_number(text)` of the Truyentranh3q and TruyenQQ crawlers; every failure is 0. */
  function ExtractNumberKM(text: string): (r: int)
    ensures text == "" || text == "N/A" ==> r == 0
  {
    if text == "" || text == "N/A" then 0
    else
      var t := Strip(text);
      var u := Upper(t);
      if 'K' in u then SuffixMantissa(Remove(u, 'K'), 1000)
      else if 'M' in u then SuffixMantissa(Remove(u, 'M'), 1000000)
      else
        var t1 := if Count(t, '.') > 1 then Remove(t, '.') else t;
        ScaledOrZero(Remove(t1, ','), 1)
  }

  /** `extract_number(x)` of the NetTruyen script and the TruyenQQ rater: numbers are truncated, text goes through `ExtractNumberKM`. */
  function ExtractNumberValue(v: Value): (r: int)
    ensures v.Int? ==> r == v.i
    ensures v.Float? ==> r == Trunc(v.f)
    ensures v.Null? ==> r == 0
  {
    match v
    case Int(i) => i
    case Float(f) => Trunc(f)
    case Null => 0
    case Str(s) => ExtractNumberKM(s)
  }

  lemma UpperOfDigits(s: string)
    requires AllDigits(s)
    ensures Upper(s) == s
  {
  }

  // The three branches of `ExtractNumberKM`, one lemma each, so that the
  // round-trip lemmas below only unfold the branch they take.

  lemma KMPlainBranch(text: string, t: string)
    requires text != "" && text != "N/A" && t == Strip(text)
    requires 'K' !in Upper(t) && 'M' !in Upper(t)
    ensures ExtractNumberKM(text) == ScaledOrZero(Remove(if Count(t, '.') > 1 then Remove(t, '.') else t, ','), 1)
  {
  }

  lemma KMKiloBranch(text: string, u: string)
    requires text != "" && text != "N/A" && u == Upper(Strip(text))
    requires 'K' in u
    ensures ExtractNumberKM(text) == SuffixMantissa(Remove(u, 'K'), 1000)
  {
  }

  lemma KMMegaBranch(text: string, u: string)
    requires text != "" && text != "N/A" && u == Upper(Strip(text))
    requires 'K' !in u && 'M' in u
    ensures ExtractNumberKM(text) == SuffixMantissa(Remove(u, 'M'), 1000000)
  {
  }

  /** `int(float(str(n)) * m) == n * m` for the multipliers the parsers use. */
  lemma ScaledOfNat(n: nat, m: nat)
    requires m == 1 || m == 1000 || m == 1000000
    ensures ScaledOrZero(NatToString(n), m) == n * m
  {
    ParseFloatOfNat(n);
  }

  lemma MantissaOfNat(n: nat, m: nat)
    requires m == 1000 || m == 1000000
    ensures SuffixMantissa(NatToString(n), m) == n * m
  {
    var d := NatToString(n);
    assert '.' !in d && ',' !in d;
    RemoveAbsent(d, '.');
    RemoveAbsent(d, ',');
    ScaledOfNat(n, m);
  }

  lemma StripSuffixed(n: nat, suffix: char)
    requires !IsSpace(suffix)
    ensures Strip(NatToString(n) + [suffix]) == NatToString(n) + [suffix]
  {
    var d := NatToString(n);
    var s := d + [suffix];
    assert s[0] == d[0];
    StripTrimmed(s);
  }

  lemma UpperSuffixed(d: string, suffix: char)
    requires AllDigits(d)
    ensures Upper(d + [suffix]) == d + [UpperChar(suffix)]
  {
    UpperOfDigits(d);
  }

  lemma RemoveSuffix(d: string, c: char)
    requires c !in d
    ensures Remove(d + [c], c) == d
  {
    RemoveAppend(d, [c], c);
    RemoveAbsent(d, c);
    assert Remove([c], c) == "" by { assert [c][1..] == ""; }
  }

  // The conclusions of the round-trip lemmas below, stated on a plain
  // variable: the callers establish the premises about the concrete text.

  lemma PlainOf(s: string, cleaned: string, r: int)
    requires s != "" && s != "N/A" && Strip(s) == s && 'K' !in Upper(s) && 'M' !in Upper(s)
    requires Remove(if Count(s, '.') > 1 then Remove(s, '.') else s, ',') == cleaned
    requires ScaledOrZero(cleaned, 1) == r
    ensures ExtractNumberKM(s) == r
  {
    KMPlainBranch(s, s);
  }

  lemma SuffixedOf(s: string, u: string, mant: string, m: nat, r: int)
    requires s != "" && s != "N/A" && Upper(Strip(s)) == u
    requires 'K' in u ==> m == 1000 && Remove(u, 'K') == mant
    requires 'K' !in u ==> 'M' in u && m == 1000000 && Remove(u, 'M') == mant
    requires SuffixMantissa(mant, m) == r
    ensures ExtractNumberKM(s) == r
  {
    if 'K' in u {
      KMKiloBranch(s, u);
    } else {
      KMMegaBranch(s, u);
    }
  }

  /** A plain numeral reads as itself. */
  lemma ExtractKMOfNat(n: nat)
    ensures ExtractNumberKM(NatToString(n)) == n
  {
    var s := NatToString(n);
    StripNumeral(s);
    UpperOfDigits(s);
    assert 'K' !in s && 'M' !in s && '.' !in s && ',' !in s;
    RemoveAbsent(s, ',');
    KMPlainBranch(s, s);
    ScaledOfNat(n, 1);
  }

  /** "12,345,678" (the front end's own format) reads as 12345678. */
  lemma ExtractKMOfCommaGrouped(n: nat)
    ensures ExtractNumberKM(Group(NatToString(n), ',')) == n
  {
    var d := NatToString(n);
    var g := Group(d, ',');
    GroupedFacts(d, ',');
    KMPlainBranch(g, g);
    RemoveSeparators(d, ',');
    ScaledOfNat(n, 1);
  }

  /** "2.345.737", two or more dots, reads as 2345737. */
  lemma ExtractKMOfDotGrouped(n: nat)
    requires n >= 1000000
    ensures ExtractNumberKM(Group(NatToString(n), '.')) == n
  {
    var d := NatToString(n);
    var g := Group(d, '.');
    GroupedFacts(d, '.');
    SevenDigits(n);
    CountSeparators(d, '.');
    RemoveSeparators(d, '.');
    RemoveAbsent(d, ',');
    ScaledOfNat(n, 1);
    PlainOf(g, d, n);
  }

  /** What the K / M parsers need to know about a grouped numeral. */
  lemma GroupedFacts(d: string, c: char)
    requires IsNumeral(d) && (c == ',' || c == '.')
    ensures var g := Group(d, c);
      g != "" && g != "N/A" && Strip(g) == g && Upper(g) == g && 'K' !in g && 'M' !in g
      && (c == ',' ==> '.' !in g)
  {
    var g := Group(d, c);
    GroupedTrimmed(d, c);
    StripTrimmed(g);
    GroupedIsUpper(d, c);
    GroupedChars(d, c);
    assert g[0] == d[0] by { GroupedFirst(d, c); }
  }

  /**
   * With exactly one dot and no suffix the text is a decimal, truncated:
   * "1.234" reads as 1, not 1234.
   */
  lemma ExtractKMOneDotIsDecimal(d: string, f: string)
    requires IsNumeral(d) && AllDigits(f)
    ensures ExtractNumberKM(d + "." + f) == ToNat(d)
  {
    var s := d + "." + f;
    OneDotFacts(s, d, f);
    PlainOf(s, s, ToNat(d));
  }

  /** What the plain branch of the K/M reader needs to know about "d.f". */
  lemma OneDotFacts(s: string, d: string, f: string)
    requires IsNumeral(d) && AllDigits(f) && s == d + "." + f
    ensures s != "" && s != "N/A" && Strip(s) == s
    ensures 'K' !in Upper(s) && 'M' !in Upper(s)
    ensures Remove(if Count(s, '.') > 1 then Remove(s, '.') else s, ',') == s
    ensures ScaledOrZero(s, 1) == ToNat(d)
  {
    assert s[0] == d[0];
    StripDecimal(d, f);
    DecimalChars(d, f);
    DecimalDotCount(d, f);
    RemoveAbsent(s, ',');
    DecimalTruncates(s, d, f);
  }

  lemma DecimalChars(d: string, f: string)
    requires AllDigits(d) && AllDigits(f)
    ensures Upper(d + "." + f) == d + "." + f
    ensures 'K' !in d + "." + f && 'M' !in d + "." + f && ',' !in d + "." + f
  {
    var s := d + "." + f;
    forall i | 0 <= i < |s| ensures s[i] == '.' || IsDigit(s[i]) {
      if i < |d| {
        assert s[i] == d[i];
      } else if i > |d| {
        assert s[i] == f[i - |d| - 1];
      }
    }
  }

  /** "5K" and "5k" read as 5000; "3M" and "3m" as 3000000. */
  lemma ExtractKMOfSuffixed(n: nat, suffix: char)
    requires suffix in "KkMm"
    ensures ExtractNumberKM(NatToString(n) + [suffix]) == n * (if suffix in "Kk" then 1000 else 1000000)
  {
    if suffix == 'K' || suffix == 'k' {
      KiloSuffixed(n, suffix);
    } else {
      MegaSuffixed(n, suffix);
    }
  }

  lemma KiloSuffixed(n: nat, c: char)
    requires c == 'K' || c == 'k'
    ensures ExtractNumberKM(NatToString(n) + [c]) == n * 1000
  {
    var d := NatToString(n);
    var s := d + [c];
    var u := d + ['K'];
    var r := n * 1000;
    MantissaOfNat(n, 1000);
    SuffixedFacts(n, c, 'K', d, s, u);
    SuffixedOf(s, u, d, 1000, r);
  }

  lemma MegaSuffixed(n: nat, c: char)
    requires c == 'M' || c == 'm'
    ensures ExtractNumberKM(NatToString(n) + [c]) == n * 1000000
  {
    var d := NatToString(n);
    var s := d + [c];
    var u := d + ['M'];
    var r := n * 1000000;
    MantissaOfNat(n, 1000000);
    SuffixedFacts(n, c, 'M', d, s, u);
    SuffixedOf(s, u, d, 1000000, r);
  }

  /** What the suffix branches of the K/M reader need to know about `str(n)` followed by a suffix letter. */
  lemma SuffixedFacts(n: nat, c: char, upper: char, d: string, s: string, u: string)
    requires upper in "KM" && UpperChar(c) == upper
    requires d == NatToString(n) && s == d + [c] && u == d + [upper]
    ensures s != "" && s != "N/A" && Upper(Strip(s)) == u
    ensures 'K' !in d && 'M' !in d
    ensures Remove(u, upper) == d
    ensures upper in u && (upper == 'M' ==> 'K' !in u)
  {
    assert u[|d|] == upper;
    StripSuffixed(n, c);
    UpperSuffixed(d, c);
    MegaLetters(d);
    RemoveSuffix(d, upper);
  }

  lemma MegaLetters(d: string)
    requires AllDigits(d)
    ensures 'K' !in d + ['M'] && 'M' !in d
  {
    assert forall i | 0 <= i < |d| :: (d + ['M'])[i] == d[i];
  }

  lemma MantissaLetters(d: string, f: string)
    requires AllDigits(d) && AllDigits(f)
    ensures 'K' !in d + "." + f && 'M' !in d + "." + f
  {
    var mant := d + "." + f;
    forall i | 0 <= i < |mant| ensures mant[i] != 'K' && mant[i] != 'M' {
      if i < |d| {
        assert mant[i] == d[i];
      } else if i > |d| {
        assert mant[i] == f[i - |d| - 1];
      }
    }
  }

  lemma DecimalSuffixedTrimmed(d: string, f: string, suffix: char)
    requires IsNumeral(d) && suffix in "KM"
    ensures Strip(d + "." + f + [suffix]) == d + "." + f + [suffix]
    ensures d + "." + f + [suffix] != "N/A"
  {
    var s := d + "." + f + [suffix];
    assert s[0] == d[0];
    StripTrimmed(s);
  }

  lemma DecimalSuffixedUpper(d: string, f: string, suffix: char)
    requires AllDigits(d) && AllDigits(f) && suffix in "KM"
    ensures Upper(d + "." + f + [suffix]) == d + "." + f + [suffix]
  {
    var s := d + "." + f + [suffix];
    forall i | 0 <= i < |s| ensures UpperChar(s[i]) == s[i] {
      if i < |d| {
        assert s[i] == d[i];
      } else if i > |d| && i < |d| + 1 + |f| {
        assert s[i] == f[i - |d| - 1];
      }
    }
  }

  lemma DecimalMantissa(d: string, c: char, m: nat)
    requires IsNumeral(d) && IsDigit(c) && (m == 1000 || m == 1000000)
    ensures SuffixMantissa(d + "." + [c], m) == ToNat(d) * m + DigitValue(c) * (m / 10)
  {
    DecimalDotCount(d, [c]);
    ParseFloatOneDecimal(d, c);
    var v := (ToNat(d) as real) + (DigitValue(c) as real) / 10.0;
    if m == 1000 {
      assert v * 1000.0 == (1000 * ToNat(d) + 100 * DigitValue(c)) as real;
    } else {
      assert v * 1000000.0 == (1000000 * ToNat(d) + 100000 * DigitValue(c)) as real;
    }
  }

  lemma ParseFloatOneDecimal(ip: string, c: char)
    requires IsNumeral(ip) && IsDigit(c)
    ensures ParseFloat(ip + "." + [c]) == Some((ToNat(ip) as real) + (DigitValue(c) as real) / 10.0)
  {
    var s := ip + "." + [c];
    ParseFloatDecimalValue(s, ip, [c]);
    DecimalValueOneDigit(ip, c);
  }

  lemma DecimalValueOneDigit(ip: string, c: char)
    requires IsNumeral(ip) && IsDigit(c)
    ensures DecimalValue(ip, [c]) == Some((ToNat(ip) as real) + (DigitValue(c) as real) / 10.0)
  {
    assert ToNat([c]) == DigitValue(c) by { assert [c][..0] == ""; }
    var x := ToNat([c]) as real;
    assert Shift(x, 1) == Shift(x, 0) / 10.0;
  }

  // ---------------------------------------------------------------------------
  // parse_number of the Manhuavn crawler

  /** `re.sub(r'[^\d.]', '', s)`: only the digits and dots are kept. */
  function DigitsAndDots(s: string): (r: string)
    ensures |r| <= |s|
    ensures forall i | 0 <= i < |r| :: IsDigit(r[i]) || r[i] == '.'
    decreases |s|
  {
    if |s| == 0 then ""
    else if IsDigit(s[0]) || s[0] == '.' then [s[0]] + DigitsAndDots(s[1..])
    else DigitsAndDots(s[1..])
  }

  /** The multiplier of the first suffix found, 'k' before 'm', and the text with every copy of it removed. */
  function ManhuavnSuffix(t: string): (string, nat) {
    if 'k' in t then (Remove(t, 'k'), 1000)
    else if 'm' in t then (Remove(t, 'm'), 1000000)
    else (t, 1)
  }

  /** `parse_number(text)`; `None` stands for a missing value. */
  function ParseNumberManhuavn(text: Option<string>): (r: int)
    ensures text.None? ==> r == 0
  {
    match text
    case None => 0
    case Some(s) => ManhuavnNormalized(ReplaceChar(Strip(Lower(s)), ',', '.'))
  }

  /** The rest of `parse_number` once the text is lower-cased, stripped and ',' turned into '.'. */
  function ManhuavnNormalized(t: string): (r: int)
    ensures t == "n/a" ==> r == 0
  {
    if t == "n/a" then 0
    else
      var (body, m) := ManhuavnSuffix(t);
      var cleaned := DigitsAndDots(body);
      if cleaned == "" then 0 else ScaledOrZero(cleaned, m)
  }

  /** Whatever the text, the Manhuavn parser never yields a negative count. */
  lemma ManhuavnNonNegative(text: Option<string>)
    ensures ParseNumberManhuavn(text) >= 0
  {
    if text.Some? {
      var t := ReplaceChar(Strip(Lower(text.value)), ',', '.');
      assert ParseNumberManhuavn(text) == ManhuavnNormalized(t);
      var (body, m) := ManhuavnSuffix(t);
      var cleaned := DigitsAndDots(body);
      if t != "n/a" && cleaned != "" {
        ScaledUnsigned(cleaned, m);
      }
    }
  }

  lemma {:induction false} DigitsAndDotsOfDigits(s: string)
    requires AllDigits(s)
    ensures DigitsAndDots(s) == s
    decreases |s|
  {
    if |s| > 0 {
      DigitsAndDotsOfDigits(s[1..]);
    }
  }

  /** A plain numeral is its own reading. */
  lemma ManhuavnOfNat(n: nat)
    ensures ParseNumberManhuavn(Some(NatToString(n))) == n
  {
    var d := NatToString(n);
    StripNumeral(d);
    assert Lower(d) == d;
    assert ReplaceChar(d, ',', '.') == d;
    NormalizedOfNat(n);
  }

  lemma NormalizedOfNat(n: nat)
    ensures ManhuavnNormalized(NatToString(n)) == n
  {
    var d := NatToString(n);
    assert d != "n/a" by { assert IsDigit(d[0]); }
    assert 'k' !in d && 'm' !in d;
    DigitsAndDotsOfDigits(d);
    ScaledOfNat(n, 1);
  }

  /** "5k" and "5K" read as 5000; "3m" and "3M" as 3000000. */
  lemma ManhuavnOfSuffixed(n: nat, suffix: char)
    requires suffix in "kKmM"
    ensures ParseNumberManhuavn(Some(NatToString(n) + [suffix])) == n * (if suffix in "kK" then 1000 else 1000000)
  {
    ManhuavnSuffixedText(NatToString(n), suffix);
    NormalizedOfSuffixed(n, LowerChar(suffix));
  }

  lemma NormalizedOfSuffixed(n: nat, small: char)
    requires small == 'k' || small == 'm'
    ensures ManhuavnNormalized(NatToString(n) + [small]) == n * (if small == 'k' then 1000 else 1000000)
  {
    var d := NatToString(n);
    var t := d + [small];
    assert t != "n/a" by { assert IsDigit(t[0]); }
    assert small !in d;
    RemoveSuffix(d, small);
    DigitsAndDotsOfDigits(d);
    if small == 'k' {
      ScaledOfNat(n, 1000);
    } else {
      assert 'k' !in t;
      ScaledOfNat(n, 1000000);
    }
  }

  /** Only the first suffix found applies: in "5mk" the 'k' wins and the 'm' is dropped as noise. */
  lemma ManhuavnKiloBeforeMega(n: nat)
    ensures ParseNumberManhuavn(Some(NatToString(n) + "mk")) == 1000 * n
  {
    var d := NatToString(n);
    var s := d + "mk";
    assert s[0] == d[0];
    StripTrimmed(s);
    assert Lower(s) == s;
    assert ReplaceChar(s, ',', '.') == s;
    NormalizedKiloBeforeMega(n);
  }

  lemma NormalizedKiloBeforeMega(n: nat)
    ensures ManhuavnNormalized(NatToString(n) + "mk") == 1000 * n
  {
    var d := NatToString(n);
    var s := d + "mk";
    assert s == (d + ['m']) + ['k'];
    assert s != "n/a" by { assert IsDigit(s[0]); }
    assert 'k' !in d + ['m'];
    RemoveSuffix(d + ['m'], 'k');
    DigitsAndDotsOfSuffixed(d, 'm');
    ScaledOfNat(n, 1000);
  }

  /** Text in which two dots survive the cleaning, such as "1.2.3", is malformed and reads as 0. */
  lemma ManhuavnMalformed(t: string)
    requires t != "n/a" && Count(DigitsAndDots(ManhuavnSuffix(t).0), '.') >= 2
    ensures ManhuavnNormalized(t) == 0
  {
    var (body, m) := ManhuavnSuffix(t);
    var cleaned := DigitsAndDots(body);
    assert cleaned != "";
    ParseFloatDigitsAndDots(cleaned);
    if UnsignedDecimal(cleaned).Some? {
      UnsignedDecimalDots(cleaned);
    }
  }

  lemma ManhuavnSuffixedText(d: string, suffix: char)
    requires IsNumeral(d) && suffix in "kKmM"
    ensures ReplaceChar(Strip(Lower(d + [suffix])), ',', '.') == d + [LowerChar(suffix)]
  {
    var s := d + [suffix];
    var l := d + [LowerChar(suffix)];
    LowerSuffixed(d, suffix, s, l);
    assert l[0] == d[0] && l[|l| - 1] == LowerChar(suffix);
    StripTrimmed(l);
    NoCommaSuffixed(d, LowerChar(suffix), l);
  }

  lemma LowerSuffixed(d: string, suffix: char, s: string, l: string)
    requires AllDigits(d) && s == d + [suffix] && l == d + [LowerChar(suffix)]
    ensures Lower(s) == l
  {
    assert forall i | 0 <= i < |d| :: s[i] == d[i] && l[i] == d[i];
  }

  lemma NoCommaSuffixed(d: string, c: char, l: string)
    requires AllDigits(d) && c in "km" && l == d + [c]
    ensures ReplaceChar(l, ',', '.') == l
  {
    assert forall i | 0 <= i < |l| :: l[i] != ',';
  }

  lemma DigitsAndDotsOfSuffixed(d: string, c: char)
    requires AllDigits(d) && !IsDigit(c) && c != '.'
    ensures DigitsAndDots(d + [c]) == d
    decreases |d|
  {
    if |d| > 0 {
      assert (d + [c])[1..] == d[1..] + [c];
      DigitsAndDotsOfSuffixed(d[1..], c);
    } else {
      assert [c][1..] == "";
    }
  }

  // ---------------------------------------------------------------------------
  // extract_number of the Manhuavn crawler: the largest digit run

  /** The largest value among the numerals `runs`, 0 for none. */
  function MaxRun(runs: seq<string>): (r: nat)
    requires forall k | 0 <= k < |runs| :: AllDigits(runs[k])
    ensures forall k | 0 <= k < |runs| :: ToNat(runs[k]) <= r
    ensures |runs| == 0 ==> r == 0
    ensures |runs| > 0 ==> exists k | 0 <= k < |runs| :: ToNat(runs[k]) == r
    decreases |runs|
  {
    if |runs| == 0 then 0
    else
      var rest := MaxRun(runs[1..]);
      var first := ToNat(runs[0]);
      assert forall k | 1 <= k < |runs| :: runs[k] == runs[1..][k - 1];
      if first >= rest then first else rest
  }

  /** `extract_number(text)` of the Manhuavn crawler: `max(map(int, re.findall(r'\d+', text)))`, or 0. */
  function MaxDigitRun(text: string): (r: nat)
    ensures text == "" || text == "N/A" ==> r == 0
  {
    if text == "" || text == "N/A" then 0 else MaxRun(DigitRuns(text))
  }

  /** `re.findall(r'\d+')` finds nothing exactly in digit-free text. */
  lemma {:induction false} DigitRunsEmpty(s: string)
    ensures DigitRuns(s) == [] <==> forall i | 0 <= i < |s| :: !IsDigit(s[i])
    decreases |s|
  {
    if |s| > 0 && !IsDigit(s[0]) {
      DigitRunsEmpty(s[1..]);
      assert forall i | 1 <= i < |s| :: s[i] == s[1..][i - 1];
    }
  }

  /** The result bounds every digit run of the text and is one of them, or 0 when there is none. */
  lemma MaxDigitRunIsMax(text: string)
    ensures var runs := DigitRuns(text);
      && (forall k | 0 <= k < |runs| :: ToNat(runs[k]) <= MaxDigitRun(text))
      && (runs != [] ==> exists k | 0 <= k < |runs| :: ToNat(runs[k]) == MaxDigitRun(text))
      && ((forall i | 0 <= i < |text| :: !IsDigit(text[i])) ==> MaxDigitRun(text) == 0)
  {
    DigitRunsEmpty(text);
    if text == "N/A" {
      assert !IsDigit(text[0]) && !IsDigit(text[1]) && !IsDigit(text[2]);
    } else if text != "" {
      assert MaxDigitRun(text) == MaxRun(DigitRuns(text));
    }
  }

  // ---------------------------------------------------------------------------
  // extract_number of the NetTruyen crawler: separators deleted

  /** `extract_number(text)` of the NetTruyen crawler: every '.' and ',' is deleted and `int` reads the rest. */
  function StripSeparators(text: string): (r: int)
    ensures text == "" || text == "N/A" ==> r == 0
  {
    if text == "" || text == "N/A" then 0
    else ParseInt(Remove(Remove(text, '.'), ',')).GetOr(0)
  }

  /** A numeral grouped with '.' or ',' reads back as itself, whatever its length: "1.234" is 1234. */
  lemma StripSeparatorsOfGrouped(n: nat, c: char)
    requires c == '.' || c == ','
    ensures StripSeparators(Group(NatToString(n), c)) == n
  {
    var d := NatToString(n);
    var g := Group(d, c);
    GroupedFacts(d, c);
    GroupedChars(d, c);
    RemoveSeparators(d, c);
    assert '.' !in d && ',' !in d;
    if c == '.' {
      RemoveAbsent(d, ',');
    } else {
      assert '.' !in g;
      RemoveAbsent(g, '.');
    }
    ParseIntOfNat(n);
  }

  // ---------------------------------------------------------------------------
  // extract_number of the data normaliser and of the Manhuavn rater

  /** The text branch shared by both: K / M scale `float` of the upper-cased text, otherwise the digits are concatenated. */
  function SuffixOrDigits(t: string): (r: int) {
    var u := Upper(t);
    if 'K' in u then ScaledOrZero(Remove(u, 'K'), 1000)
    else if 'M' in u then ScaledOrZero(Remove(u, 'M'), 1000000)
    else ToNat(Digits(t))
  }

  /** `DataNormalizer.extract_number(x)`. */
  function NormalizerExtract(v: Value): (r: int)
    ensures !Truthy(v) ==> r == 0
    ensures v.Int? ==> r == v.i
    ensures v.Float? ==> r == Trunc(v.f)
  {
    if !Truthy(v) then 0
    else
      match v
      case Int(i) => i
      case Float(f) => Trunc(f)
      case Str(s) => SuffixOrDigits(Strip(s))
      case Null => 0
  }

  /** `ManhuavnRatingCalculator.extract_number(x)`: the same, with an explicit "N/A" check first. */
  function ManhuavnRaterExtract(v: Value): (r: int)
    ensures !Truthy(v) || v == Str("N/A") ==> r == 0
    ensures v.Int? ==> r == v.i
    ensures v.Float? ==> r == Trunc(v.f)
  {
    if !Truthy(v) || v == Str("N/A") then 0
    else
      match v
      case Int(i) => i
      case Float(f) => Trunc(f)
      case Str(s) => SuffixOrDigits(Strip(s))
      case Null => 0
  }

  /** The rater's extra "N/A" check changes nothing: "N/A" has no K, no M and no digit. */
  lemma RaterAgreesWithNormalizer(v: Value)
    ensures ManhuavnRaterExtract(v) == NormalizerExtract(v)
  {
    if v.Str? && v.s == "N/A" {
      NotApplicableIsZero(v.s);
    }
  }

  // The facts about "N/A" are stated for a variable equal to it, which keeps
  // the solver from evaluating every parser branch on the literal.

  lemma NotApplicableIsZero(s: string)
    requires s == "N/A"
    ensures NormalizerExtract(Str(s)) == 0
  {
    NotApplicableFacts(s);
    SuffixOrDigitsPlain(s, s);
  }

  lemma NotApplicableFacts(s: string)
    requires s == "N/A"
    ensures Upper(s) == s && Digits(s) == "" && Strip(s) == s && 'K' !in s && 'M' !in s
  {
    NotApplicableLetters(s);
    NotApplicableUpper();
    NotApplicableDigits();
    StripTrimmed("N/A");
  }

  lemma NotApplicableLetters(s: string)
    requires s == "N/A"
    ensures 'K' !in s && 'M' !in s
  {
  }

  lemma NotApplicableUpper()
    ensures Upper("N/A") == "N/A"
  {
  }

  lemma NotApplicableDigits()
    ensures Digits("N/A") == ""
  {
  }

  lemma SuffixOrDigitsKilo(t: string, u: string)
    requires u == Upper(t) && 'K' in u
    ensures SuffixOrDigits(t) == ScaledOrZero(Remove(u, 'K'), 1000)
  {
  }

  lemma SuffixOrDigitsMega(t: string, u: string)
    requires u == Upper(t) && 'K' !in u && 'M' in u
    ensures SuffixOrDigits(t) == ScaledOrZero(Remove(u, 'M'), 1000000)
  {
  }

  lemma SuffixOrDigitsPlain(t: string, u: string)
    requires u == Upper(t) && 'K' !in u && 'M' !in u
    ensures SuffixOrDigits(t) == ToNat(Digits(t))
  {
  }

  lemma {:induction false} DigitsSkipSeparator(s: string, c: char)
    requires !IsDigit(c)
    requires forall i | 0 <= i < |s| :: IsDigit(s[i]) || s[i] == c
    ensures Digits(s) == Remove(s, c)
    decreases |s|
  {
    if |s| > 0 {
      DigitsSkipSeparator(s[1..], c);
    }
  }

  /** A grouped count such as "1.234.567" reads as the concatenated digits. */
  lemma NormalizerOfGrouped(n: nat, c: char)
    requires c == '.' || c == ','
    ensures NormalizerExtract(Str(Group(NatToString(n), c))) == n
  {
    var d := NatToString(n);
    var g := Group(d, c);
    GroupedFacts(d, c);
    GroupedChars(d, c);
    DigitsSkipSeparator(g, c);
    RemoveSeparators(d, c);
    SuffixOrDigitsPlain(g, g);
    ToNatOfNatToString(n);
  }

  /** "5K" and "5k" read as 5000; "3M" and "3m" as 3000000. */
  lemma NormalizerOfSuffixed(n: nat, suffix: char)
    requires suffix in "KkMm"
    ensures NormalizerExtract(Str(NatToString(n) + [suffix])) == n * (if suffix in "Kk" then 1000 else 1000000)
  {
    var d := NatToString(n);
    var s := d + [suffix];
    StripSuffixed(n, suffix);
    NormalizerOfText(s);
    SuffixOrDigitsOfSuffixed(n, suffix);
  }

  lemma NormalizerOfText(s: string)
    requires s != ""
    ensures NormalizerExtract(Str(s)) == SuffixOrDigits(Strip(s))
  {
  }

  lemma SuffixOrDigitsOfSuffixed(n: nat, suffix: char)
    requires suffix in "KkMm"
    ensures SuffixOrDigits(NatToString(n) + [suffix]) == n * (if suffix in "Kk" then 1000 else 1000000)
  {
    var d := NatToString(n);
    var s := d + [suffix];
    var big := UpperChar(suffix);
    UpperSuffixed(d, suffix);
    assert big !in d;
    RemoveSuffix(d, big);
    if big == 'K' {
      SuffixOrDigitsKilo(s, d + [big]);
      ScaledOfNat(n, 1000);
    } else {
      assert 'K' !in d + [big];
      SuffixOrDigitsMega(s, d + [big]);
      ScaledOfNat(n, 1000000);
    }
  }

  // ---------------------------------------------------------------------------
  // extract_chapter_number, identical in all five crawlers

  const Chuong: string := "Ch\U{01B0}\U{01A1}ng"

  /** `extract_chapter_number(text)`; `None` stands for a non-string argument, whose `TypeError` is caught. */
  function ChapterNumber(text: Option<string>): (r: nat)
    ensures text.None? ==> r == 0
  {
    match text
    case None => 0
    case Some(s) =>
      match SearchNumberAfter(s, "Chapter")
      case Some(d) => ToNat(d)
      case None =>
        match SearchNumberAfter(s, Chuong)
        case Some(d) => ToNat(d)
        case None =>
          match FirstDigitRun(s)
          case Some(d) => ToNat(d)
          case None => 0
  }

  /** The three patterns are tried in order and the first that matches decides. */
  lemma ChapterPrecedence(s: string)
    ensures SearchNumberAfter(s, "Chapter").Some? ==> ChapterNumber(Some(s)) == ToNat(SearchNumberAfter(s, "Chapter").value)
    ensures SearchNumberAfter(s, "Chapter").None? && SearchNumberAfter(s, Chuong).Some? ==>
      ChapterNumber(Some(s)) == ToNat(SearchNumberAfter(s, Chuong).value)
    ensures SearchNumberAfter(s, "Chapter").None? && SearchNumberAfter(s, Chuong).None? && FirstDigitRun(s).Some? ==>
      ChapterNumber(Some(s)) == ToNat(FirstDigitRun(s).value)
  {
  }

  /** A keyword match always includes a digit, so digit-free text reads as chapter 0. */
  lemma ChapterDigitFree(s: string)
    requires forall i | 0 <= i < |s| :: !IsDigit(s[i])
    ensures ChapterNumber(Some(s)) == 0
  {
    if SearchNumberAfter(s, "Chapter").Some? {
      SearchFindsDigit(s, "Chapter");
    } else if SearchNumberAfter(s, Chuong).Some? {
      SearchFindsDigit(s, Chuong);
    }
  }

  lemma {:induction false} SearchFindsDigit(s: string, kw: string)
    requires SearchNumberAfter(s, kw).Some?
    ensures exists i | 0 <= i < |s| :: IsDigit(s[i])
    decreases |s|
  {
    match NumberAfterAt(s, kw)
    case Some(d) =>
      var rest := s[|kw|..];
      var k := LeadingSpaces(rest);
      assert IsDigit(rest[k..][0]);
      assert s[|kw| + k] == rest[k..][0];
    case None =>
      SearchFindsDigit(s[1..], kw);
      var i :| 0 <= i < |s| - 1 && IsDigit(s[1..][i]);
      assert s[i + 1] == s[1..][i];
  }

  /** "Chapter 124" reads as 124. */
  lemma ChapterOfChapterN(n: nat)
    ensures ChapterNumber(Some("Chapter " + NatToString(n))) == n
  {
    var d := NatToString(n);
    var s := "Chapter " + d;
    assert StartsWith(s, "Chapter");
    var rest := s[7..];
    assert rest == " " + d;
    assert LeadingSpaces(rest) == 1 by { assert IsDigit(rest[1]); }
    assert rest[1..] == d;
    assert LeadingDigits(d) == d by { LeadingDigitsOfNumeral(d); }
    ToNatOfNatToString(n);
  }

  /** "Chương 12" reads as 12: "Chapter" cannot occur in it. */
  lemma ChapterOfChuongN(n: nat)
    ensures ChapterNumber(Some(Chuong + " " + NatToString(n))) == n
  {
    var d := NatToString(n);
    var s := Chuong + " " + d;
    assert 'p' !in s by { assert forall i | 0 <= i < |d| :: s[i + 7] == d[i]; }
    SearchWithout(s, "Chapter", 3);
    assert StartsWith(s, Chuong);
    var rest := s[6..];
    assert rest == " " + d;
    assert LeadingSpaces(rest) == 1 by { assert IsDigit(rest[1]); }
    assert rest[1..] == d;
    assert LeadingDigits(d) == d by { LeadingDigitsOfNumeral(d); }
    ToNatOfNatToString(n);
  }

  /** A bare number, such as the text of a chapter link "124", reads as itself. */
  lemma ChapterOfBare(n: nat)
    ensures ChapterNumber(Some(NatToString(n))) == n
  {
    var d := NatToString(n);
    assert 'p' !in d && Chuong[0] !in d;
    SearchWithout(d, "Chapter", 3);
    SearchWithout(d, Chuong, 0);
    LeadingDigitsOfNumeral(d);
    ToNatOfNatToString(n);
  }

  lemma {:induction false} LeadingDigitsOfNumeral(d: string)
    requires AllDigits(d)
    ensures LeadingDigits(d) == d
    decreases |d|
  {
    if |d| > 0 {
      LeadingDigitsOfNumeral(d[1..]);
    }
  }

  /** A keyword search cannot succeed in text that lacks one of the keyword's characters. */
  lemma SearchWithout(s: string, kw: string, j: nat)
    requires j < |kw| && kw[j] !in s
    ensures SearchNumberAfter(s, kw).None?
  {
    if SearchNumberAfter(s, kw).Some? {
      SearchNeedsKeyword(s, kw);
      ContainsHasChars(s, kw, j);
    }
  }

  // Helpers about grouped numerals

  lemma GroupedChars(d: string, c: char)
    requires AllDigits(d)
    ensures forall i | 0 <= i < |Group(d, c)| :: IsDigit(Group(d, c)[i]) || Group(d, c)[i] == c
  {
    GroupsAreDigits(d);
    JoinChars(Groups(d), c);
  }

  lemma {:induction false} JoinChars(parts: seq<string>, c: char)
    requires forall k | 0 <= k < |parts| :: AllDigits(parts[k])
    ensures forall i | 0 <= i < |Join(parts, [c])| :: IsDigit(Join(parts, [c])[i]) || Join(parts, [c])[i] == c
    decreases |parts|
  {
    if |parts| > 1 {
      JoinChars(parts[1..], c);
      var rest := Join(parts[1..], [c]);
      var j := parts[0] + [c] + rest;
      forall i | 0 <= i < |j| ensures IsDigit(j[i]) || j[i] == c {
        if i < |parts[0]| {
          assert j[i] == parts[0][i];
        } else if i > |parts[0]| {
          assert j[i] == rest[i - |parts[0]| - 1];
        }
      }
    }
  }

  lemma GroupedIsUpper(d: string, c: char)
    requires AllDigits(d) && (c == ',' || c == '.')
    ensures Upper(Group(d, c)) == Group(d, c)
  {
    GroupedChars(d, c);
  }

  lemma GroupedTrimmed(d: string, c: char)
    requires IsNumeral(d) && !IsSpace(c)
    ensures |Group(d, c)| > 0
    ensures !IsSpace(Group(d, c)[0]) && !IsSpace(Group(d, c)[|Group(d, c)| - 1])
  {
    GroupedChars(d, c);
    GroupsAreDigits(d);
    var gs := Groups(d);
    JoinEnds(gs, c);
  }

  lemma SevenDigits(n: nat)
    requires n >= 1000000
    ensures |NatToString(n)| >= 7
  {
    assert Pow10(6) == 1000000;
    NatToStringLength(n, 6);
  }
}
