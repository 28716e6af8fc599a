/**
 * The data normaliser: before a comic record is stored, missing fields get
 * defaults and a few text fields become numbers, with rules per source site.
 *
 * Records are immutable maps here, so working on a copy and leaving the
 * caller's record alone hold by construction.
 */
module Normalizer {
  import opened Base
  import opened Text
  import opened PyNum
  import opened NumberParsing

  /** `d.setdefault(k, v)` for every entry of `defaults`: present keys keep their values. */
  function SetDefaults(d: Dict, defaults: Dict): (r: Dict)
    ensures r.Keys == d.Keys + defaults.Keys
    ensures forall k | k in d :: r[k] == d[k]
    ensures forall k | k in defaults && k !in d :: r[k] == defaults[k]
  {
    defaults + d
  }

  /** The fields every record gets, and `nguon` naming the source. */
  function BaseDefaults(source: string): Dict {
    map["ten_truyen" := Str(""), "tac_gia" := Str(""), "the_loai" := Str(""), "mo_ta" := Str(""),
        "link_truyen" := Str(""), "so_chuong" := Int(0), "luot_xem" := Int(0), "trang_thai" := Str(""),
        "nguon" := Str(source)]
  }

  /** The extra fields of each known source; other sources get none. */
  function SourceDefaults(source: string): Dict {
    if source == "TruyenQQ" || source == "Truyentranh3q" then
      map["luot_thich" := Int(0), "luot_theo_doi" := Int(0), "so_binh_luan" := Int(0)]
    else if source == "NetTruyen" then
      map["luot_thich" := Int(0), "luot_theo_doi" := Int(0), "rating" := Str(""),
          "luot_danh_gia" := Int(0), "so_binh_luan" := Int(0)]
    else if source == "Manhuavn" then
      map["luot_theo_doi" := Int(0), "danh_gia" := Str(""), "luot_danh_gia" := Int(0)]
    else map[]
  }

  /** The fields whose text value the normaliser turns into a number. */
  predicate Numeric(source: string, k: string) {
    k == "so_chuong" || k == "luot_xem" || (source == "Manhuavn" && (k == "luot_theo_doi" || k == "luot_danh_gia"))
  }

  /** Every field the normaliser may rewrite. */
  predicate Converted(source: string, k: string) {
    Numeric(source, k) || (source == "NetTruyen" && k == "rating")
  }

  /** `int(re.sub(r'[^\d]', '', s) or 0)`: the number its digits spell, 0 without digits. */
  function ChapterDigits(s: string): (n: nat)
    ensures (forall i | 0 <= i < |s| :: !IsDigit(s[i])) ==> n == 0
    ensures AllDigits(s) && |s| > 0 ==> n == ToNat(s)
  {
    var d := Digits(s);
    DigitsOfDigits(s);
    if d == "" then 0 else ToNat(d)
  }

  lemma {:induction false} DigitsOfDigits(s: string)
    ensures AllDigits(s) ==> Digits(s) == s
    decreases |s|
  {
    if |s| > 0 {
      DigitsOfDigits(s[1..]);
      assert AllDigits(s) ==> AllDigits(s[1..]) by {
        assert forall i | 1 <= i < |s| :: s[1..][i - 1] == s[i];
      }
      assert s == [s[0]] + s[1..];
    }
  }

  /** The two ways the normaliser reads a number from text. */
  datatype Reader = ChapterReader | CountReader

  function Read(reader: Reader, s: string): int {
    match reader
    case ChapterReader => ChapterDigits(s)
    case CountReader => NormalizerExtract(Str(s))
  }

  /** A text value of `key` read as a number; other values are kept. */
  function ToNumber(d: Dict, key: string, reader: Reader): (r: Dict)
    requires key in d
    ensures r.Keys == d.Keys
    ensures forall k | k in d && k != key :: r[k] == d[k]
    ensures d[key].Str? ==> r[key] == Int(Read(reader, d[key].s))
    ensures !d[key].Str? ==> r[key] == d[key]
  {
    if d[key].Str? then d[key := Int(Read(reader, d[key].s))] else d
  }

  /** A NetTruyen rating "a/b" is replaced by its stripped numerator. */
  function RatingNumerator(s: string): (r: string)
    ensures '/' !in r
    ensures '/' !in s ==> r == s
  {
    if '/' in s then
      var head := Split(s, "/")[0];
      FirstPartLacksSeparator(s, '/');
      StripKeepsOut(head, '/');
      Strip(head)
    else s
  }

  lemma FirstPartLacksSeparator(s: string, c: char)
    ensures c !in Split(s, [c])[0]
  {
    match Find(s, [c])
    case None =>
      ContainsChar(s, c);
    case Some(i) =>
      assert Split(s, [c])[0] == s[..i];
      forall j | 0 <= j < i
        ensures s[j] != c
      {
        assert !StartsWith(s[j..], [c]);
      }
  }

  lemma StripKeepsOut(s: string, c: char)
    requires c !in s
    ensures c !in Strip(s)
  {
  }

  /** The source-independent half: base defaults, then text chapter and view counts read as numbers. */
  function NormalizeBase(comic: Dict, source: string): (r: Dict)
    ensures r.Keys == comic.Keys + BaseDefaults(source).Keys
    ensures forall k | k in comic && k != "so_chuong" && k != "luot_xem" :: r[k] == comic[k]
    ensures forall k | k in BaseDefaults(source) && k !in comic :: r[k] == BaseDefaults(source)[k]
    ensures forall k | k in comic && !comic[k].Str? :: r[k] == comic[k]
    ensures !r["so_chuong"].Str? && !r["luot_xem"].Str?
    ensures "so_chuong" in comic && comic["so_chuong"].Str? ==> r["so_chuong"] == Int(ChapterDigits(comic["so_chuong"].s))
    ensures "luot_xem" in comic && comic["luot_xem"].Str? ==> r["luot_xem"] == Int(NormalizerExtract(comic["luot_xem"]))
  {
    var n := SetDefaults(comic, BaseDefaults(source));
    assert "so_chuong" != "luot_xem";
    var n := ToNumber(n, "so_chuong", ChapterReader);
    ToNumber(n, "luot_xem", CountReader)
  }

  /** The per-source half: the source's defaults, then its conversions. */
  function NormalizeSource(n: Dict, source: string): (r: Dict)
    ensures r.Keys == n.Keys + SourceDefaults(source).Keys
  {
    var n := SetDefaults(n, SourceDefaults(source));
    if source == "NetTruyen" then ToNumerator(n, "rating")
    else if source == "Manhuavn" then
      var n := ToNumber(n, "luot_theo_doi", CountReader);
      ToNumber(n, "luot_danh_gia", CountReader)
    else n
  }

  /** A text value of `key` replaced by its rating numerator; other values are kept. */
  function ToNumerator(d: Dict, key: string): (r: Dict)
    requires key in d
    ensures r.Keys == d.Keys
    ensures forall k | k in d && k != key :: r[k] == d[k]
    ensures d[key].Str? ==> r[key] == Str(RatingNumerator(d[key].s))
    ensures !d[key].Str? ==> r[key] == d[key]
  {
    if d[key].Str? then d[key := Str(RatingNumerator(d[key].s))] else d
  }

  /** The per-source half rewrites only the fields the source converts. */
  lemma SourceKeepsUnconverted(n: Dict, source: string)
    ensures forall k | k in n && !Converted(source, k) :: NormalizeSource(n, source)[k] == n[k]
  {
  }

  /** The per-source half leaves values that are not text alone. */
  lemma SourceKeepsNonText(n: Dict, source: string)
    ensures forall k | k in n && !n[k].Str? :: NormalizeSource(n, source)[k] == n[k]
  {
  }

  /** A missing source field takes the source's default, which no conversion changes. */
  lemma SourceFillsDefaults(n: Dict, source: string)
    ensures forall k | k in SourceDefaults(source) && k !in n :: NormalizeSource(n, source)[k] == SourceDefaults(source)[k]
  {
    if source == "NetTruyen" {
      NetTruyenFillsDefaults(n);
    } else if source == "Manhuavn" {
      ManhuavnFillsDefaults(n);
    }
  }

  lemma NetTruyenFillsDefaults(n: Dict)
    ensures forall k | k in SourceDefaults("NetTruyen") && k !in n :: NormalizeSource(n, "NetTruyen")[k] == SourceDefaults("NetTruyen")[k]
  {
    var d := SetDefaults(n, SourceDefaults("NetTruyen"));
    assert RatingNumerator("") == "";
    assert "rating" !in n ==> d["rating"] == Str("");
  }

  lemma ManhuavnFillsDefaults(n: Dict)
    ensures forall k | k in SourceDefaults("Manhuavn") && k !in n :: NormalizeSource(n, "Manhuavn")[k] == SourceDefaults("Manhuavn")[k]
  {
    var d := SetDefaults(n, SourceDefaults("Manhuavn"));
    assert "luot_theo_doi" !in n ==> !d["luot_theo_doi"].Str?;
    assert "luot_danh_gia" !in n ==> !d["luot_danh_gia"].Str?;
  }

  /** The Manhuavn counts always end up as numbers, and a NetTruyen text rating as its numerator. */
  lemma NormalizeSourceConverts(n: Dict, source: string)
    ensures source == "Manhuavn" ==> !NormalizeSource(n, source)["luot_theo_doi"].Str? && !NormalizeSource(n, source)["luot_danh_gia"].Str?
    ensures source == "NetTruyen" && "rating" in n && n["rating"].Str? ==>
      NormalizeSource(n, source)["rating"] == Str(RatingNumerator(n["rating"].s))
  {
  }

  /**
   * `DataNormalizer.normalize_comic_data(comic, source)`: defaults for the base
   * fields, text `so_chuong` and `luot_xem` read as numbers, then the source's
   * defaults and conversions.
   */
  function Normalize(comic: Dict, source: string): (r: Dict)
    ensures r.Keys == comic.Keys + BaseDefaults(source).Keys + SourceDefaults(source).Keys
  {
    NormalizeSource(NormalizeBase(comic, source), source)
  }

  /** Every numeric field of the source ends up present and a number. */
  lemma NormalizeNumeric(comic: Dict, source: string, k: string)
    requires Numeric(source, k)
    ensures k in Normalize(comic, source) && !Normalize(comic, source)[k].Str?
  {
    var n := NormalizeBase(comic, source);
    if k == "so_chuong" || k == "luot_xem" {
      KeptNonText(n, source, k);
    } else {
      NormalizeSourceConverts(n, source);
    }
  }

  lemma KeptNonText(n: Dict, source: string, k: string)
    requires k in n && !n[k].Str?
    ensures k in NormalizeSource(n, source) && NormalizeSource(n, source)[k] == n[k]
  {
    SourceKeepsNonText(n, source);
  }

  /** A NetTruyen rating that is still text has no '/' left. */
  lemma NormalizeRatingClean(comic: Dict)
    ensures Normalize(comic, "NetTruyen")["rating"].Str? ==> '/' !in Normalize(comic, "NetTruyen")["rating"].s
  {
    var n := NormalizeBase(comic, "NetTruyen");
    if "rating" in n && n["rating"].Str? {
      NormalizeSourceConverts(n, "NetTruyen");
    } else if "rating" in n {
      SourceKeepsNonText(n, "NetTruyen");
    } else {
      NetTruyenFillsDefaults(n);
    }
  }

  /**
   * Existing values are never overwritten: a field keeps its value unless it
   * is one the source converts and holds text.
   */
  lemma NormalizeKeepsFields(comic: Dict, source: string)
    ensures forall k | k in comic && !Converted(source, k) :: Normalize(comic, source)[k] == comic[k]
    ensures forall k | k in comic && !comic[k].Str? :: Normalize(comic, source)[k] == comic[k]
  {
    var n := NormalizeBase(comic, source);
    assert forall k | k in comic && !Converted(source, k) :: n[k] == comic[k];
    SourceKeepsUnconverted(n, source);
    SourceKeepsNonText(n, source);
  }

  /** A missing base field takes its default, which no conversion then changes. */
  lemma MissingBaseFieldTakesDefault(comic: Dict, source: string, k: string)
    requires k !in comic && k in BaseDefaults(source)
    ensures Normalize(comic, source)[k] == BaseDefaults(source)[k]
  {
    var n := NormalizeBase(comic, source);
    assert n[k] == BaseDefaults(source)[k];
    if Converted(source, k) {
      assert k == "so_chuong" || k == "luot_xem";
      SourceKeepsNonText(n, source);
    } else {
      SourceKeepsUnconverted(n, source);
    }
  }

  /** A missing source field, not also a base field, takes the source's default. */
  lemma MissingSourceFieldTakesDefault(comic: Dict, source: string, k: string)
    requires k !in comic && k !in BaseDefaults(source) && k in SourceDefaults(source)
    ensures Normalize(comic, source)[k] == SourceDefaults(source)[k]
  {
    var n := NormalizeBase(comic, source);
    assert k !in n;
    SourceFillsDefaults(n, source);
  }

  /** A NetTruyen rating text "a/b" is stored as the stripped "a"; a rating without '/' is kept. */
  lemma NetTruyenRatingNumerator(comic: Dict, s: string)
    requires "rating" in comic && comic["rating"] == Str(s)
    ensures '/' in s ==> Normalize(comic, "NetTruyen")["rating"] == Str(Strip(Split(s, "/")[0]))
    ensures '/' !in s ==> Normalize(comic, "NetTruyen")["rating"] == Str(s)
  {
    var n := NormalizeBase(comic, "NetTruyen");
    assert n["rating"] == comic["rating"];
    NormalizeSourceConverts(n, "NetTruyen");
  }

  /** Normalising twice is normalising once. */
  lemma NormalizeIdempotent(comic: Dict, source: string)
    ensures Normalize(Normalize(comic, source), source) == Normalize(comic, source)
  {
    var once := Normalize(comic, source);
    var twice := Normalize(once, source);
    assert twice.Keys == once.Keys;
    forall k | k in once
      ensures twice[k] == once[k]
    {
      IdempotentAt(comic, source, k);
    }
    SameEntries(twice, once);
  }

  lemma SameEntries(a: Dict, b: Dict)
    requires a.Keys == b.Keys && forall k | k in a :: a[k] == b[k]
    ensures a == b
  {
  }

  lemma IdempotentAt(comic: Dict, source: string, k: string)
    requires k in Normalize(comic, source)
    ensures k in Normalize(Normalize(comic, source), source)
    ensures Normalize(Normalize(comic, source), source)[k] == Normalize(comic, source)[k]
  {
    var once := Normalize(comic, source);
    NormalizeKeepsFields(once, source);
    if Numeric(source, k) {
      NormalizeNumeric(comic, source, k);
    } else if Converted(source, k) && once[k].Str? {
      NormalizeRatingClean(comic);
      NetTruyenRatingNumerator(once, once[k].s);
    }
  }
}
