/**
 * Python's numeric conversions as the scrapers use them: `int(x)` on a float
 * (truncation toward zero), `float(s)` and `int(s)` on text, and the dynamic
 * values (`None`, `int`, `float`, `str`) that flow through the dictionaries.
 *
 * Floats are exact rationals here. `float(s)` accepts an optional sign and a
 * decimal numeral with at most one '.', surrounded by whitespace; exponents,
 * digit underscores, "inf" and "nan" are not part of the accepted grammar.
 */
module PyNum {
  import opened Base
  import opened Text

  /** `int(x)` for a float `x`: truncation toward zero. */
  function Trunc(x: real): (r: int)
    ensures x >= 0.0 ==> r >= 0 && r as real <= x < r as real + 1.0
    ensures x < 0.0 ==> r <= 0 && r as real - 1.0 < x <= r as real
  {
    if x >= 0.0 then x.Floor else -((-x).Floor)
  }

  function Pow10(k: nat): (p: nat)
    ensures p >= 1
  {
    if k == 0 then 1 else 10 * Pow10(k - 1)
  }

  /** `str(n)` has more than `k` digits exactly when `n >= 10^k`; here the direction the parsers need. */
  lemma {:induction false} NatToStringLength(n: nat, k: nat)
    requires n >= Pow10(k)
    ensures |NatToString(n)| > k
  {
    if k > 0 {
      NatToStringLength(n / 10, k - 1);
    }
  }

  /** A numeral of `k` digits is below `10^k`. */
  lemma {:induction false} ToNatBelow(s: string)
    requires AllDigits(s)
    ensures ToNat(s) < Pow10(|s|)
    decreases |s|
  {
    if |s| > 0 {
      var init := s[..|s| - 1];
      assert AllDigits(init) by {
        assert forall i | 0 <= i < |init| :: init[i] == s[i];
      }
      ToNatBelow(init);
    }
  }

  /** `x / 10^k`, as `k` divisions by ten. */
  function Shift(x: real, k: nat): (r: real)
    ensures x >= 0.0 ==> r >= 0.0
  {
    if k == 0 then x else Shift(x, k - 1) / 10.0
  }

  lemma {:induction false} ShiftIsDivision(x: real, k: nat)
    ensures Shift(x, k) == x / (Pow10(k) as real)
  {
    if k > 0 {
      ShiftIsDivision(x, k - 1);
      assert (Pow10(k) as real) == 10.0 * (Pow10(k - 1) as real);
    }
  }

  /** The value of the numeral `ip.fp`; either side may be empty, not both. */
  function DecimalValue(ip: string, fp: string): (r: Option<real>)
    ensures r.Some? ==> r.value >= 0.0
  {
    if AllDigits(ip) && AllDigits(fp) && |ip| + |fp| > 0 then
      Some(ToNat(ip) as real + Shift(ToNat(fp) as real, |fp|))
    else None
  }

  /** The value of an unsigned decimal numeral `ip.fp` or `ip`. */
  function UnsignedDecimal(s: string): (r: Option<real>)
    ensures r.Some? ==> r.value >= 0.0
  {
    var parts := Split(s, ".");
    if |parts| == 1 then
      if IsNumeral(s) then Some(ToNat(s) as real) else None
    else if |parts| == 2 then DecimalValue(parts[0], parts[1])
    else None
  }

  /** `float(s)`, or `None` where Python raises `ValueError`. */
  function ParseFloat(s: string): Option<real> {
    var t := Strip(s);
    if |t| > 0 && t[0] == '-' then
      match UnsignedDecimal(t[1..])
      case Some(v) => Some(-v)
      case None => None
    else if |t| > 0 && t[0] == '+' then UnsignedDecimal(t[1..])
    else UnsignedDecimal(t)
  }

  /** `int(s)` on text, or `None` where Python raises `ValueError`. */
  function ParseInt(s: string): Option<int> {
    var t := Strip(s);
    if |t| > 0 && (t[0] == '-' || t[0] == '+') then
      var body := t[1..];
      var v: int := if IsNumeral(body) then ToNat(body) else 0;
      if IsNumeral(body) then Some(if t[0] == '-' then -v else v) else None
    else if IsNumeral(t) then Some(ToNat(t))
    else None
  }

  /** `int(float(s) * m)` with a failed conversion read as 0 (the callers catch the error and return 0). */
  function ScaledOrZero(s: string, m: nat): int {
    match ParseFloat(s)
    case Some(v) => Trunc(v * m as real)
    case None => 0
  }

  /** `int(float("d.f"))` is `d`: the fraction is below one. */
  lemma DecimalTruncates(s: string, d: string, f: string)
    requires IsNumeral(d) && AllDigits(f) && s == d + "." + f
    ensures ScaledOrZero(s, 1) == ToNat(d)
  {
    ParseFloatOfDecimal(s, d, f);
    TruncatedDecimal(s, d, f);
  }

  lemma TruncatedDecimal(s: string, d: string, f: string)
    requires AllDigits(d) && AllDigits(f)
    requires ParseFloat(s).Some? && ParseFloat(s).value == ToNat(d) as real + Shift(ToNat(f) as real, |f|)
    ensures ScaledOrZero(s, 1) == ToNat(d)
  {
    FractionBelowOne(f);
    TruncatedOf(s, ToNat(d));
  }

  lemma FractionBelowOne(f: string)
    requires AllDigits(f)
    ensures 0.0 <= Shift(ToNat(f) as real, |f|) < 1.0
  {
    var x := ToNat(f) as real;
    ShiftIsDivision(x, |f|);
    ToNatBelow(f);
    var p := Pow10(|f|) as real;
    QuotientBelowOne(x, p);
  }

  lemma QuotientBelowOne(x: real, p: real)
    requires 0.0 <= x < p
    ensures x / p < 1.0
  {
    assert (x / p) * p == x;
  }

  /** A parsed value between `n` and `n + 1` truncates to `n`. */
  lemma TruncatedOf(s: string, n: nat)
    requires ParseFloat(s).Some? && n as real <= ParseFloat(s).value < n as real + 1.0
    ensures ScaledOrZero(s, 1) == n
  {
    assert ParseFloat(s).value * (1 as nat) as real == ParseFloat(s).value;
  }

  /** `str(n)` never starts or ends with whitespace, so stripping leaves it alone. */
  lemma StripNumeral(s: string)
    requires IsNumeral(s)
    ensures Strip(s) == s
  {
    StripTrimmed(s);
  }

  /** `float(str(n)) == n`. */
  lemma ParseFloatOfNat(n: nat)
    ensures ParseFloat(NatToString(n)) == Some(n as real)
  {
    var s := NatToString(n);
    StripNumeral(s);
    SplitNoSep(s, '.');
    ToNatOfNatToString(n);
  }

  /** `int(str(n)) == n`. */
  lemma ParseIntOfNat(n: nat)
    ensures ParseInt(NatToString(n)) == Some(n)
  {
    var s := NatToString(n);
    StripNumeral(s);
    assert IsDigit(s[0]);
    ToNatOfNatToString(n);
  }

  /** `int("-" + str(n)) == -n`. */
  lemma ParseIntOfNegNat(n: nat, m: string)
    requires m == "-" + NatToString(n)
    ensures ParseInt(m) == Some(-(n as int))
  {
    var s := NatToString(n);
    NegativeText(s, m);
    ParseIntNegative(m, s);
    ToNatOfNatToString(n);
  }

  lemma ParseIntNegative(m: string, body: string)
    requires IsNumeral(body) && |m| > 1 && m[0] == '-' && m[1..] == body && Strip(m) == m
    ensures ParseInt(m) == Some(-(ToNat(body) as int))
  {
  }

  lemma NegativeText(s: string, m: string)
    requires IsNumeral(s) && m == "-" + s
    ensures |m| > 1 && m[0] == '-' && m[1..] == s
    ensures Strip(m) == m
  {
    assert m[|m| - 1] == s[|s| - 1];
    StripTrimmed(m);
  }

  /** `float("ip.fp")` is `ip + fp / 10^len(fp)`. */
  lemma ParseFloatOfDecimal(s: string, ip: string, fp: string)
    requires IsNumeral(ip) && AllDigits(fp) && s == ip + "." + fp
    ensures ParseFloat(s).Some?
    ensures ParseFloat(s).value == ToNat(ip) as real + Shift(ToNat(fp) as real, |fp|)
  {
    ParseFloatDecimalValue(s, ip, fp);
    DecimalValueOf(ip, fp);
  }

  lemma DecimalValueOf(ip: string, fp: string)
    requires IsNumeral(ip) && AllDigits(fp)
    ensures DecimalValue(ip, fp) == Some(ToNat(ip) as real + Shift(ToNat(fp) as real, |fp|))
  {
  }

  lemma ParseFloatDecimalValue(s: string, ip: string, fp: string)
    requires IsNumeral(ip) && AllDigits(fp) && s == ip + "." + fp
    ensures ParseFloat(s) == DecimalValue(ip, fp)
  {
    StripDecimal(ip, fp);
    assert s[0] == ip[0];
    ParseFloatUnsigned(s);
    UnsignedDecimalOfParts(ip, fp);
  }

  lemma StripDecimal(ip: string, fp: string)
    requires IsNumeral(ip) && AllDigits(fp)
    ensures Strip(ip + "." + fp) == ip + "." + fp
  {
    var s := ip + "." + fp;
    assert s[0] == ip[0];
    assert s[|s| - 1] == if |fp| == 0 then '.' else fp[|fp| - 1];
    StripTrimmed(s);
  }

  /** Without a sign, `float` reads the unsigned numeral. */
  lemma ParseFloatUnsigned(s: string)
    requires Strip(s) == s && |s| > 0 && IsDigit(s[0])
    ensures ParseFloat(s) == UnsignedDecimal(s)
  {
  }

  lemma UnsignedDecimalOfParts(ip: string, fp: string)
    requires IsNumeral(ip) && AllDigits(fp)
    ensures UnsignedDecimal(ip + "." + fp) == DecimalValue(ip, fp)
  {
    assert '.' !in ip;
    assert '.' !in fp;
    SplitChar(ip, '.', fp);
    SplitNoSep(fp, '.');
  }

  /** A decimal numeral holds exactly one dot. */
  lemma DecimalDotCount(d: string, f: string)
    requires AllDigits(d) && AllDigits(f)
    ensures Count(d + "." + f, '.') == 1
  {
    assert d + "." + f == d + ("." + f);
    CountAppend(d, "." + f, '.');
    CountAppend(".", f, '.');
    assert '.' !in d && '.' !in f;
    assert Count(".", '.') == 1 by { assert "."[1..] == ""; }
  }

  /** `float(s)` only succeeds on text made of a sign, digits, one '.' and surrounding whitespace. */
  lemma UnsignedDecimalChars(s: string)
    requires UnsignedDecimal(s).Some?
    ensures forall i | 0 <= i < |s| :: IsDigit(s[i]) || s[i] == '.'
  {
    var parts := Split(s, ".");
    if |parts| == 2 {
      JoinSplit(s, ".");
      assert s == parts[0] + "." + parts[1];
      forall i | 0 <= i < |s| ensures IsDigit(s[i]) || s[i] == '.' {
        if i < |parts[0]| {
          assert s[i] == parts[0][i];
        } else if i > |parts[0]| {
          assert s[i] == parts[1][i - |parts[0]| - 1];
        }
      }
    }
  }

  /** `float` accepts at most one decimal point. */
  lemma UnsignedDecimalDots(s: string)
    requires UnsignedDecimal(s).Some?
    ensures Count(s, '.') <= 1
  {
    var parts := Split(s, ".");
    if |parts| == 2 {
      JoinSplit(s, ".");
      assert s == parts[0] + "." + parts[1];
      DecimalDotCount(parts[0], parts[1]);
    } else {
      ContainsChar(s, '.');
    }
  }

  /** Text made only of digits and dots carries no sign and no padding, so `float` reads it unsigned. */
  lemma ParseFloatDigitsAndDots(s: string)
    requires |s| > 0 && forall i | 0 <= i < |s| :: IsDigit(s[i]) || s[i] == '.'
    ensures ParseFloat(s) == UnsignedDecimal(s)
  {
    StripTrimmed(s);
  }

  /** Scaling the reading of unsigned text by a non-negative multiplier never gives a negative count. */
  lemma ScaledUnsigned(s: string, m: nat)
    requires |s| > 0 && forall i | 0 <= i < |s| :: IsDigit(s[i]) || s[i] == '.'
    ensures ScaledOrZero(s, m) >= 0
  {
    ParseFloatDigitsAndDots(s);
    assert ParseFloat(s).Some? ==> ParseFloat(s).value >= 0.0;
    ScaledNonNegative(s, m);
  }

  lemma ScaledNonNegative(s: string, m: nat)
    requires ParseFloat(s).Some? ==> ParseFloat(s).value >= 0.0
    ensures ScaledOrZero(s, m) >= 0
  {
    if ParseFloat(s).Some? {
      TruncOfProduct(ParseFloat(s).value, m);
    }
  }

  lemma TruncOfProduct(v: real, m: nat)
    requires v >= 0.0
    ensures Trunc(v * m as real) >= 0
  {
    assert v * m as real >= 0.0;
  }

  // ---------------------------------------------------------------------------
  // Dynamic values

  /** A Python value as it appears in the scraped dictionaries. */
  datatype Value = Null | Int(i: int) | Float(f: real) | Str(s: string)

  /** Python truthiness: `None`, `0`, `0.0` and `""` are false. */
  predicate Truthy(v: Value) {
    match v
    case Null => false
    case Int(i) => i != 0
    case Float(f) => f != 0.0
    case Str(s) => s != ""
  }

  /** `a or b` */
  function Or(a: Value, b: Value): (r: Value)
    ensures Truthy(r) <==> Truthy(a) || Truthy(b)
    ensures Truthy(a) ==> r == a
  {
    if Truthy(a) then a else b
  }

  /** `x or 0` for a count read from a dictionary. */
  function OrZero(v: Value): (r: Value)
    ensures Truthy(v) ==> r == v
    ensures !Truthy(v) ==> r == Int(0)
  {
    Or(v, Int(0))
  }

  /** `int(v)`; `None` where Python raises (`int(None)`, a string that is not an integer numeral). */
  function IntOf(v: Value): (r: Option<int>)
    ensures v.Int? ==> r == Some(v.i)
    ensures v.Null? ==> r.None?
    ensures v.Float? ==> r.Some? && -1.0 < v.f - (r.value as real) < 1.0
  {
    match v
    case Null => None
    case Int(i) => Some(i)
    case Float(f) => Some(Trunc(f))
    case Str(s) => ParseInt(s)
  }

  /** The number a value stands for in arithmetic and comparisons; `None` where Python raises `TypeError` (`None`, strings). */
  function Number(v: Value): (r: Option<real>)
    ensures r.Some? <==> v.Int? || v.Float?
    ensures !Truthy(v) && r.Some? ==> r.value == 0.0
  {
    match v
    case Int(i) => Some(i as real)
    case Float(f) => Some(f)
    case _ => None
  }

  /** A scraped record: a Python dictionary from field names to values. */
  type Dict = map<string, Value>

  /** `d.get(key, default)` */
  function Get(d: Dict, key: string, default: Value): Value {
    if key in d then d[key] else default
  }
}
