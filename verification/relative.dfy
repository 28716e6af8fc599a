/**
 * The comment-time parsers. Pages print comment times as Vietnamese relative
 * phrases ("5 phút trước", five minutes ago) or as dates; the crawlers turn
 * them into a moment relative to the current time.
 *
 * The clock is not modelled: a `Moment` is either the current time, a number
 * of seconds before it, or what `datetime.strptime(text, format)` denotes.
 * Whether `strptime` accepts a text in a format is the parameter `accepts`,
 * and how many whole seconds the current time lies after `datetime.min` is
 * the parameter `sinceMin`.
 */
module RelativeTime {
  import opened Base
  import opened Text

  datatype Moment =
    | Now
    | Ago(seconds: nat)
    | At(text: string, format: string)

  const Minute: nat := 60
  const Hour: nat := 3600
  const Day: nat := 86400

  const JustNow: string := "v\U{1EEB}a xong"
  const SecondsAgo: string := "gi\U{00E2}y tr\U{01B0}\U{1EDB}c"

  /** The unit words in the order the crawlers test them: minute, hour, day, week, month, year. */
  const UnitWords: seq<string> := [
    "ph\U{00FA}t", "gi\U{1EDD}", "ng\U{00E0}y", "tu\U{1EA7}n", "th\U{00E1}ng", "n\U{0103}m"
  ]

  /** The same words followed by " trước" ("ago"), as the Truyentranh3q and Manhuavn crawlers test them. */
  const UnitPhrases: seq<string> := [
    "ph\U{00FA}t tr\U{01B0}\U{1EDB}c", "gi\U{1EDD} tr\U{01B0}\U{1EDB}c", "ng\U{00E0}y tr\U{01B0}\U{1EDB}c",
    "tu\U{1EA7}n tr\U{01B0}\U{1EDB}c", "th\U{00E1}ng tr\U{01B0}\U{1EDB}c", "n\U{0103}m tr\U{01B0}\U{1EDB}c"
  ]

  /** The formats the Truyentranh3q and Manhuavn crawlers try, in order, when no unit matches. */
  const DateFormats: seq<string> := [
    "%Y-%m-%d %H:%M:%S", "%d/%m/%Y %H:%M:%S", "%d/%m/%Y %H:%M", "%Y-%m-%d %H:%M", "%Y-%m-%d", "%d/%m/%Y"
  ]

  const IsoFormat: string := "%Y-%m-%d %H:%M:%S"

  /**
   * The `timedelta` of `n` units of kind `unit` (an index into `UnitWords`), in seconds.
   * A month is `int(n * 30.44)` days and a year 365 days.
   */
  function UnitSeconds(unit: nat, n: nat): (s: nat)
    requires unit < 6
    ensures unit == 0 ==> s == 60 * n
    ensures unit == 1 ==> s == 3600 * n
    ensures unit == 2 ==> s == 86400 * n
    ensures unit == 3 ==> s == 7 * 86400 * n
    ensures unit == 4 ==> s == 86400 * ((n * 3044) / 100)
    ensures unit == 5 ==> s == 365 * 86400 * n
  {
    if unit == 0 then n * Minute
    else if unit == 1 then n * Hour
    else if unit == 2 then n * Day
    else if unit == 3 then 7 * n * Day
    else if unit == 4 then ((n * 3044) / 100) * Day
    else 365 * n * Day
  }

  /** The index of the first of `words[from..]` that occurs in `t`. */
  function FirstWord(t: string, words: seq<string>, from: nat): (r: Option<nat>)
    requires from <= |words|
    ensures r.Some? ==> from <= r.value < |words| && Contains(t, words[r.value])
    ensures r.Some? ==> forall j | from <= j < r.value :: !Contains(t, words[j])
    ensures r.None? ==> forall j | from <= j < |words| :: !Contains(t, words[j])
    decreases |words| - from
  {
    if from == |words| then None
    else if Contains(t, words[from]) then Some(from)
    else FirstWord(t, words, from + 1)
  }

  /** The largest `timedelta`, in seconds: 999999999 days and the rest of the last day. */
  const MaxTimedelta: nat := 1000000000 * Day - 1

  /**
   * Whether `now - timedelta(seconds)` exists: the `timedelta` is within its limit and
   * the difference is not before `datetime.min`.
   */
  predicate Representable(seconds: nat, sinceMin: nat) {
    seconds <= MaxTimedelta && seconds <= sinceMin
  }

  /**
   * `now - timedelta(...)` inside the parsers' `try`: outside the representable range
   * Python raises `OverflowError`, and the handler answers with the current time.
   */
  function Back(seconds: nat, sinceMin: nat): (m: Moment)
    ensures m == Ago(seconds) <==> Representable(seconds, sinceMin)
    ensures !Representable(seconds, sinceMin) ==> m == Now
  {
    if Representable(seconds, sinceMin) then Ago(seconds) else Now
  }

  /** The first of `formats[from..]` in which `strptime` accepts `t`. */
  function FirstFormat(t: string, formats: seq<string>, from: nat, accepts: (string, string) -> bool): (r: Option<string>)
    requires from <= |formats|
    ensures r.Some? ==> accepts(t, r.value) && exists k | from <= k < |formats| :: formats[k] == r.value
    ensures r.None? ==> forall k | from <= k < |formats| :: !accepts(t, formats[k])
    decreases |formats| - from
  {
    if from == |formats| then None
    else if accepts(t, formats[from]) then Some(formats[from])
    else FirstFormat(t, formats, from + 1, accepts)
  }

  /** The relative phrase read from the digits and unit phrases of `t`, or the first date format that fits. */
  function PhraseOrDate(t: string, accepts: (string, string) -> bool, sinceMin: nat): (m: Moment) {
    if Contains(t, JustNow) || Contains(t, SecondsAgo) then Now
    else
      var digits := Digits(t);
      if digits == "" then Now
      else
        match FirstWord(t, UnitPhrases, 0)
        case Some(u) => Back(UnitSeconds(u, ToNat(digits)), sinceMin)
        case None =>
          match FirstFormat(t, DateFormats, 0, accepts)
          case Some(f) => At(t, f)
          case None => Now
  }

  /** `parse_relative_time(text)` of the Truyentranh3q crawler; `None` stands for a non-string. */
  function RelativeTruyentranh3q(text: Option<string>, accepts: (string, string) -> bool, sinceMin: nat): (m: Moment)
    ensures text.None? ==> m == Now
    ensures text.Some? && Strip(text.value) == "" ==> m == Now
  {
    match text
    case None => Now
    case Some(s) =>
      if Strip(s) == "" then Now else PhraseOrDate(Lower(Strip(s)), accepts, sinceMin)
  }

  // ---------------------------------------------------------------------------
  // Manhuavn: "HH:MM - d/m/yyyy" is rewritten first

  /** `s.zfill(w)`: zeros inserted after an optional sign up to width `w`. */
  function ZFill(s: string, w: nat): (r: string)
    ensures |r| == if |s| >= w then |s| else w
  {
    if |s| >= w then s
    else if |s| > 0 && (s[0] == '-' || s[0] == '+') then [s[0]] + Zeros(w - |s|) + s[1..]
    else Zeros(w - |s|) + s
  }

  function Zeros(k: nat): (r: string)
    ensures |r| == k && forall i | 0 <= i < k :: r[i] == '0'
  {
    seq(k, i => '0')
  }

  /** The ISO text "yyyy-mm-dd HH:MM:00" that the Manhuavn crawler builds from "HH:MM - d/m/yyyy", if `t` has that shape. */
  function ReformatDate(t: string): (r: Option<string>) {
    if Contains(t, " - ") && '/' in t then
      var parts := Split(t, " - ");
      if |parts| == 2 then
        var timePart := Strip(parts[0]);
        var datePart := Strip(parts[1]);
        var comps := Split(datePart, "/");
        if |comps| == 3 then
          Some(comps[2] + "-" + ZFill(comps[1], 2) + "-" + ZFill(comps[0], 2) + " " + timePart + ":00")
        else None
      else None
    else None
  }

  /** `parse_relative_time(text)` of the Manhuavn crawler. */
  function RelativeManhuavn(text: Option<string>, accepts: (string, string) -> bool, sinceMin: nat): (m: Moment)
    ensures text.None? ==> m == Now
    ensures text.Some? && Strip(text.value) == "" ==> m == Now
  {
    match text
    case None => Now
    case Some(s) =>
      if Strip(s) == "" then Now
      else
        var t := Lower(Strip(s));
        match ReformatDate(t)
        case Some(iso) =>
          if accepts(iso, IsoFormat) then At(iso, IsoFormat) else PhraseOrDate(t, accepts, sinceMin)
        case None => PhraseOrDate(t, accepts, sinceMin)
  }

  // ---------------------------------------------------------------------------
  // NetTruyen: exact timestamps first, then bare unit words

  /** `parse_relative_time(text)` of the NetTruyen crawler. */
  function RelativeNetTruyen(text: string, accepts: (string, string) -> bool, sinceMin: nat): (m: Moment) {
    var t := Strip(Lower(text));
    if accepts(t, IsoFormat) then At(t, IsoFormat)
    else
      var digits := Digits(t);
      if digits == "" then Now
      else
        match FirstWord(t, UnitWords, 0)
        case Some(u) => Back(UnitSeconds(u, ToNat(digits)), sinceMin)
        case None => Now
  }

  // ---------------------------------------------------------------------------
  // Properties

  /** Text without a digit is "just now" unless it is a date, and for the phrase parsers it is "now" outright. */
  lemma NoDigitsIsNow(t: string, accepts: (string, string) -> bool, sinceMin: nat)
    requires forall i | 0 <= i < |t| :: !IsDigit(t[i])
    ensures PhraseOrDate(t, accepts, sinceMin) == Now
    ensures !accepts(Strip(Lower(t)), IsoFormat) ==> RelativeNetTruyen(t, accepts, sinceMin) == Now
  {
    var u := Strip(Lower(t));
    if !accepts(u, IsoFormat) {
      NoDigitsAfterNormalising(t);
    }
  }

  lemma NoDigitsAfterNormalising(t: string)
    requires forall i | 0 <= i < |t| :: !IsDigit(t[i])
    ensures Digits(Strip(Lower(t))) == ""
  {
    var l := Lower(t);
    assert forall i | 0 <= i < |l| :: !IsDigit(l[i]);
    var r := LStrip(l);
    NoDigitSuffix(l, |l| - |r|);
    NoDigitPrefix(r, |RStrip(r)|);
  }

  lemma NoDigitSuffix(s: string, k: nat)
    requires k <= |s| && forall i | 0 <= i < |s| :: !IsDigit(s[i])
    ensures forall i | 0 <= i < |s| - k :: !IsDigit(s[k..][i])
  {
    assert forall i | 0 <= i < |s| - k :: s[k..][i] == s[k + i];
  }

  lemma NoDigitPrefix(s: string, k: nat)
    requires k <= |s| && forall i | 0 <= i < |s| :: !IsDigit(s[i])
    ensures forall i | 0 <= i < k :: !IsDigit(s[..k][i])
  {
    assert forall i | 0 <= i < k :: s[..k][i] == s[i];
  }

  /** The digits of the whole text are the count, whatever separates them: "1 giờ 30" reads as 130 hours. */
  lemma CountIsAllDigits(t: string, accepts: (string, string) -> bool, sinceMin: nat)
    requires !Contains(t, JustNow) && !Contains(t, SecondsAgo)
    requires FirstWord(t, UnitPhrases, 0).Some?
    requires Digits(t) != ""
    ensures PhraseOrDate(t, accepts, sinceMin) == Back(UnitSeconds(FirstWord(t, UnitPhrases, 0).value, ToNat(Digits(t))), sinceMin)
  {
  }

  /** A phrase "<n> <unit> trước" reads as `n` units ago, for each of the six units. */
  lemma PhraseOfUnit(n: nat, unit: nat, accepts: (string, string) -> bool, sinceMin: nat)
    requires unit < 6
    ensures PhraseOrDate(NatToString(n) + " " + UnitPhrases[unit], accepts, sinceMin) == (var s := UnitSeconds(unit, n); if Representable(s, sinceMin) then Ago(s) else Now)
  {
    var d := NatToString(n);
    var w := UnitPhrases[unit];
    var t := d + " " + w;
    PhraseLetters(d, unit);
    PhraseDigits(d, unit);
    PhraseFirstUnit(d, unit);
    ToNatOfNatToString(n);
  }

  /** So many years that the `timedelta` itself overflows: the parser answers "now", whatever the clock. */
  lemma YearsPastLimitAreNow(n: nat, accepts: (string, string) -> bool, sinceMin: nat)
    requires n > MaxTimedelta / (365 * Day)
    ensures PhraseOrDate(NatToString(n) + " " + UnitPhrases[5], accepts, sinceMin) == Now
  {
    assert UnitSeconds(5, n) > MaxTimedelta;
    PhraseOfUnit(n, 5, accepts, sinceMin);
  }

  lemma PhraseLetters(d: string, unit: nat)
    requires IsNumeral(d) && unit < 6
    ensures !Contains(d + " " + UnitPhrases[unit], JustNow)
    ensures !Contains(d + " " + UnitPhrases[unit], SecondsAgo)
  {
    var t := d + " " + UnitPhrases[unit];
    CharsOfPhrase(d, unit, JustNow[1]);
    MissingChar(t, JustNow, 1);
    CharsOfPhrase(d, unit, SecondsAgo[2]);
    MissingChar(t, SecondsAgo, 2);
  }

  /** Only digits, the space and the phrase's own characters occur in "<n> <phrase>". */
  lemma CharsOfPhrase(d: string, unit: nat, c: char)
    requires AllDigits(d) && unit < 6 && !IsDigit(c) && c != ' ' && c !in UnitPhrases[unit]
    ensures c !in d + " " + UnitPhrases[unit]
  {
    var w := UnitPhrases[unit];
    var t := d + " " + w;
    forall i | 0 <= i < |t| ensures t[i] != c {
      if i < |d| {
        assert t[i] == d[i];
      } else if i > |d| {
        assert t[i] == w[i - |d| - 1];
      }
    }
  }

  lemma PhraseDigits(d: string, unit: nat)
    requires IsNumeral(d) && unit < 6
    ensures Digits(d + " " + UnitPhrases[unit]) == d
  {
    var w := UnitPhrases[unit];
    DigitsOfDigitsThen(d, " " + w);
    assert d + " " + w == d + (" " + w);
  }

  lemma {:induction false} DigitsOfDigitsThen(d: string, rest: string)
    requires AllDigits(d) && forall i | 0 <= i < |rest| :: !IsDigit(rest[i])
    ensures Digits(d + rest) == d
    decreases |d|
  {
    if |d| > 0 {
      assert (d + rest)[1..] == d[1..] + rest;
      DigitsOfDigitsThen(d[1..], rest);
    } else {
      assert d + rest == rest;
    }
  }

  /** In "<n> <phrase k>" the first phrase found is phrase `k`: each earlier phrase has a letter the text lacks. */
  lemma PhraseFirstUnit(d: string, unit: nat)
    requires IsNumeral(d) && unit < 6
    ensures FirstWord(d + " " + UnitPhrases[unit], UnitPhrases, 0) == Some(unit)
  {
    var w := UnitPhrases[unit];
    var t := d + " " + w;
    assert t[|d| + 1..] == w;
    ContainsAt(t, w, |d| + 1);
    forall j | 0 <= j < unit ensures !Contains(t, UnitPhrases[j]) {
      PhraseMark(j, unit);
      CharsOfPhrase(d, unit, UnitPhrases[j][2]);
      MissingChar(t, UnitPhrases[j], 2);
    }
    FirstWordIs(t, UnitPhrases, unit);
  }

  /** The third letter of each phrase is absent from every later one. */
  lemma PhraseMark(j: nat, unit: nat)
    requires j < unit < 6
    ensures var c := UnitPhrases[j][2]; !IsDigit(c) && c != ' ' && c !in UnitPhrases[unit]
  {
  }

  /** `FirstWord` finds `k` when word `k` occurs and no earlier one does. */
  lemma {:induction false} FirstWordIs(t: string, words: seq<string>, k: nat)
    requires k < |words| && Contains(t, words[k])
    requires forall j | 0 <= j < k :: !Contains(t, words[j])
    ensures FirstWord(t, words, 0) == Some(k)
  {
    FirstWordFrom(t, words, 0, k);
  }

  lemma {:induction false} FirstWordFrom(t: string, words: seq<string>, from: nat, k: nat)
    requires from <= k < |words| && Contains(t, words[k])
    requires forall j | from <= j < k :: !Contains(t, words[j])
    ensures FirstWord(t, words, from) == Some(k)
    decreases k - from
  {
    if from < k {
      FirstWordFrom(t, words, from + 1, k);
    }
  }

  /** The unit phrases are checked in order: a text naming minutes and hours counts minutes. */
  lemma UnitPriority(t: string, accepts: (string, string) -> bool, sinceMin: nat, unit: nat)
    requires unit < 6
    requires !Contains(t, JustNow) && !Contains(t, SecondsAgo) && Digits(t) != ""
    requires Contains(t, UnitPhrases[unit])
    requires forall j | 0 <= j < unit :: !Contains(t, UnitPhrases[j])
    ensures PhraseOrDate(t, accepts, sinceMin) == (var s := UnitSeconds(unit, ToNat(Digits(t))); if Representable(s, sinceMin) then Ago(s) else Now)
  {
    FirstWordIs(t, UnitPhrases, unit);
  }

  /** Without a unit phrase the date formats are tried in order, and "now" is the last resort. */
  lemma DatesAfterUnits(t: string, accepts: (string, string) -> bool, sinceMin: nat)
    requires !Contains(t, JustNow) && !Contains(t, SecondsAgo) && Digits(t) != ""
    requires forall j | 0 <= j < 6 :: !Contains(t, UnitPhrases[j])
    ensures FirstWord(t, UnitPhrases, 0).None?
    ensures var f := FirstFormat(t, DateFormats, 0, accepts);
      PhraseOrDate(t, accepts, sinceMin) == (if f.Some? then At(t, f.value) else Now)
  {
    assert FirstWord(t, UnitPhrases, 0).None?;
  }

  /** The NetTruyen parser returns an exact timestamp as it is, before looking at any unit. */
  lemma NetTruyenExactFirst(text: string, accepts: (string, string) -> bool, sinceMin: nat)
    requires accepts(Strip(Lower(text)), IsoFormat)
    ensures RelativeNetTruyen(text, accepts, sinceMin) == At(Strip(Lower(text)), IsoFormat)
  {
  }

  /** The NetTruyen parser tests the bare unit words in the same order; no word means "now". */
  lemma NetTruyenUnits(text: string, accepts: (string, string) -> bool, sinceMin: nat)
    requires !accepts(Strip(Lower(text)), IsoFormat) && Digits(Strip(Lower(text))) != ""
    ensures var t := Strip(Lower(text));
      match FirstWord(t, UnitWords, 0)
      case Some(u) => RelativeNetTruyen(text, accepts, sinceMin) == (var s := UnitSeconds(u, ToNat(Digits(t))); if Representable(s, sinceMin) then Ago(s) else Now)
                      && Contains(t, UnitWords[u]) && forall j | 0 <= j < u :: !Contains(t, UnitWords[j])
      case None => RelativeNetTruyen(text, accepts, sinceMin) == Now && forall j | 0 <= j < 6 :: !Contains(t, UnitWords[j])
  {
  }

  /** The rewrite of "HH:MM - d/m/yyyy": "14:05 - 3/7/2024" becomes "2024-07-03 14:05:00". */
  lemma ReformatOfClock(time: string, d: string, m: string, y: string)
    requires IsClock(time) && IsNumeral(d) && IsNumeral(m) && IsNumeral(y)
    ensures ReformatDate(time + " - " + d + "/" + m + "/" + y)
         == Some(y + "-" + ZFill(m, 2) + "-" + ZFill(d, 2) + " " + time + ":00")
  {
    ClockParts(time, d, m, y);
    ReformatOfParts(time + " - " + d + "/" + m + "/" + y, time, d + "/" + m + "/" + y, d, m, y);
  }

  lemma ClockParts(time: string, d: string, m: string, y: string)
    requires IsClock(time) && IsNumeral(d) && IsNumeral(m) && IsNumeral(y)
    ensures var t := time + " - " + d + "/" + m + "/" + y;
      Contains(t, " - ") && '/' in t && Split(t, " - ") == [time, d + "/" + m + "/" + y]
    ensures Strip(time) == time && Strip(d + "/" + m + "/" + y) == d + "/" + m + "/" + y
    ensures Split(d + "/" + m + "/" + y, "/") == [d, m, y]
  {
    var date := d + "/" + m + "/" + y;
    var t := time + " - " + date;
    assert t == time + " - " + d + "/" + m + "/" + y;
    ClockHasNoSpace(time);
    DateHasNoSpace(d, m, y);
    ReformatContains(time, date);
    SplitSep(time, " - ", date);
    SplitWithout(date, " - ");
    StripClock(time);
    StripDate(d, m, y);
    SplitDate(d, m, y);
  }

  /** Once the text is in normal form and rewrites to an ISO text that `strptime` accepts, that moment is the answer. */
  lemma ManhuavnReformatted(s: string, iso: string, accepts: (string, string) -> bool, sinceMin: nat)
    requires Strip(s) == s && s != "" && Lower(s) == s && ReformatDate(s) == Some(iso) && accepts(iso, IsoFormat)
    ensures RelativeManhuavn(Some(s), accepts, sinceMin) == At(iso, IsoFormat)
  {
  }

  /** "HH:MM - d/m/yyyy" has no padding and no capital letter. */
  lemma ClockDateNormal(time: string, d: string, m: string, y: string)
    requires IsClock(time) && IsNumeral(d) && IsNumeral(m) && IsNumeral(y)
    ensures var s := time + " - " + d + "/" + m + "/" + y; s != "" && Strip(s) == s && Lower(s) == s
  {
    var s := time + " - " + d + "/" + m + "/" + y;
    assert s[0] == time[0];
    assert s[|s| - 1] == y[|y| - 1];
    StripTrimmed(s);
    forall i | 0 <= i < |s| ensures LowerChar(s[i]) == s[i] {
      var a := |time| + 3;
      var b := a + |d| + 1;
      var c := b + |m| + 1;
      if i < |time| {
        assert s[i] == time[i];
      } else if a <= i < a + |d| {
        assert s[i] == d[i - a];
      } else if b <= i < b + |m| {
        assert s[i] == m[i - b];
      } else if c <= i {
        assert s[i] == y[i - c];
      }
    }
  }

  /** The clock part: non-empty, digits and ':' only. */
  predicate IsClock(s: string) {
    |s| > 0 && forall i | 0 <= i < |s| :: IsDigit(s[i]) || s[i] == ':'
  }

  lemma ClockHasNoSpace(time: string)
    requires IsClock(time)
    ensures ' ' !in time && '/' !in time
  {
  }

  lemma DateHasNoSpace(d: string, m: string, y: string)
    requires AllDigits(d) && AllDigits(m) && AllDigits(y)
    ensures ' ' !in d + "/" + m + "/" + y
  {
    var date := d + "/" + m + "/" + y;
    forall i | 0 <= i < |date| ensures date[i] != ' ' {
      if i < |d| {
        assert date[i] == d[i];
      } else if |d| < i < |d| + 1 + |m| {
        assert date[i] == m[i - |d| - 1];
      } else if i > |d| + 1 + |m| {
        assert date[i] == y[i - |d| - |m| - 2];
      }
    }
  }

  lemma ReformatContains(time: string, date: string)
    requires |date| > 0 && date[1..] != date && '/' in date
    ensures Contains(time + " - " + date, " - ")
    ensures '/' in time + " - " + date
  {
    var t := time + " - " + date;
    assert t[|time|..|time| + 3] == " - ";
    ContainsAt(t, " - ", |time|);
    var i :| 0 <= i < |date| && date[i] == '/';
    assert t[|time| + 3 + i] == '/';
  }

  lemma StripClock(time: string)
    requires IsClock(time)
    ensures Strip(time) == time
  {
    StripTrimmed(time);
  }

  lemma StripDate(d: string, m: string, y: string)
    requires IsNumeral(d) && IsNumeral(y) && AllDigits(m)
    ensures Strip(d + "/" + m + "/" + y) == d + "/" + m + "/" + y
  {
    var date := d + "/" + m + "/" + y;
    assert date[0] == d[0];
    assert date[|date| - 1] == y[|y| - 1];
    StripTrimmed(date);
  }

  lemma SplitDate(d: string, m: string, y: string)
    requires AllDigits(d) && AllDigits(m) && AllDigits(y)
    ensures Split(d + "/" + m + "/" + y, "/") == [d, m, y]
  {
    assert '/' !in d && '/' !in m && '/' !in y;
    assert d + "/" + m + "/" + y == d + ['/'] + (m + "/" + y);
    SplitChar(d, '/', m + "/" + y);
    assert m + "/" + y == m + ['/'] + y;
    SplitChar(m, '/', y);
    SplitNoSep(y, '/');
  }

  lemma ReformatOfParts(t: string, time: string, date: string, d: string, m: string, y: string)
    requires Contains(t, " - ") && '/' in t
    requires Split(t, " - ") == [time, date]
    requires Strip(time) == time && Strip(date) == date
    requires Split(date, "/") == [d, m, y]
    ensures ReformatDate(t) == Some(y + "-" + ZFill(m, 2) + "-" + ZFill(d, 2) + " " + time + ":00")
  {
  }

  /** Day and month are padded to two digits and keep their value; a two-digit field is left alone. */
  lemma ZFillDigits(s: string)
    requires IsNumeral(s)
    ensures |ZFill(s, 2)| == if |s| >= 2 then |s| else 2
    ensures AllDigits(ZFill(s, 2)) && ToNat(ZFill(s, 2)) == ToNat(s)
    ensures |s| >= 2 ==> ZFill(s, 2) == s
  {
    if |s| == 1 {
      var z := ZFill(s, 2);
      assert z == "0" + s;
      assert z[..1] == "0";
    }
  }
}
