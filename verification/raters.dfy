/**
 * The stand-alone base raters of the analysis package: `ManhuavnRatingCalculator`,
 * `NetTruyenRatingCalculator` and `Truyentranh3qRatingCalculator`. Each reads one scraped
 * comic dictionary and returns a base rating on [0, 10], or 5.0 where the computation raises.
 * The logarithmic normalisation is the `norm` parameter of the Ratings module.
 */
module Raters {
  import opened Base
  import opened Text
  import opened PyNum
  import opened NumberParsing
  import opened Ratings

  /** What every rater returns when its computation raises. */
  const Fallback: real := 5.0

  // ---------------------------------------------------------------------------
  // ManhuavnRatingCalculator

  /**
   * The rater's reading of `danh_gia` (default "N/A"): "N/A" is 5.0, a string goes through the
   * fraction and `float` paths, and any other value raises, since `'/' in` a non-string does.
   */
  function ManhuavnRaterRating(v: Value): (r: Option<real>)
    ensures v == NotRated ==> r == Some(5.0)
    ensures !v.Str? ==> r.None?
    ensures v.Str? && !HasSlash(v) ==> r.Some?
  {
    if v == NotRated then Some(5.0)
    else if v.Str? then ManhuavnRatingValue(v)
    else None
  }

  /** The four counts, each through the rater's own `extract_number`, which never raises. */
  function ManhuavnRaterCounts(comic: Dict): (c: Counts)
    ensures c.likes == 0.0 && c.comments == 0.0
    ensures c.views == ManhuavnRaterExtract(Get(comic, "luot_xem", Int(0))) as real
  {
    Counts(
      ManhuavnRaterExtract(Get(comic, "luot_xem", Int(0))) as real, 0.0,
      ManhuavnRaterExtract(Get(comic, "luot_theo_doi", Int(0))) as real,
      ManhuavnRaterExtract(Get(comic, "so_chuong", Int(0))) as real,
      ManhuavnRaterExtract(Get(comic, "luot_danh_gia", Int(0))) as real, 0.0)
  }

  /** `0.01 * max(1, followers)`: the number of ratings that gives full confidence. */
  function FollowerScale(follows: real): (r: real)
    ensures r >= 0.01
    ensures follows >= 1.0 ==> r * 100.0 == follows
  {
    0.01 * (if follows >= 1.0 then follows else 1.0)
  }

  /** Views 1 + 1.5, follows 0.5 + 3 and the rating 4 points; all guarded terms, chapters weigh nothing. */
  function ManhuavnRaterBase(norm: LogNorm, c: Counts, rating: real): (r: real)
    ensures ValidNorm(norm) && 0.0 <= rating <= 10.0 ==> 0.0 <= r <= 10.0
  {
    var viewScore := GuardedTerm(norm, c.views, 500000.0) * 1.0 +
      GuardedTerm(norm, PerChapter(c.views, c.chapters), 1500.0) * 1.5;
    var followerScore := GuardedTerm(norm, c.follows, 30000.0) * 0.5 +
      GuardedTerm(norm, PerChapter(c.follows, c.chapters), 100.0) * 3.0;
    var chapterScore := GuardedTerm(norm, c.chapters, 500.0) * 0.0;
    viewScore + followerScore + chapterScore + RatingScore(rating, 4.0, Confidence(c.ratings, FollowerScale(c.follows)))
  }

  /** `ManhuavnRatingCalculator.calculate` */
  function ManhuavnCalculate(norm: LogNorm, comic: Dict): (r: real)
    ensures 0.0 <= r <= 10.0
    ensures ManhuavnRaterRating(Get(comic, "danh_gia", NotRated)).None? ==> r == Fallback
    ensures !Get(comic, "danh_gia", NotRated).Str? ==> r == Fallback
    ensures "danh_gia" !in comic ==> r == Clamp10(ManhuavnRaterBase(norm, ManhuavnRaterCounts(comic), 5.0))
    ensures var rating := ManhuavnRaterRating(Get(comic, "danh_gia", NotRated));
      ValidNorm(norm) && rating.Some? && 0.0 <= rating.value <= 10.0 ==>
        r == ManhuavnRaterBase(norm, ManhuavnRaterCounts(comic), rating.value)
  {
    match ManhuavnRaterRating(Get(comic, "danh_gia", NotRated))
    case None => Fallback
    case Some(rating) => Clamp10(ManhuavnRaterBase(norm, ManhuavnRaterCounts(comic), rating))
  }

  /** A zero denominator, as in "7/0", makes the division raise and the rater fall back to 5.0. */
  lemma ManhuavnZeroDenominator(norm: LogNorm, comic: Dict, a: nat)
    requires Get(comic, "danh_gia", NotRated) == Str(NatToString(a) + "/" + NatToString(0))
    ensures ManhuavnCalculate(norm, comic) == Fallback
  {
    var s := NatToString(a) + "/" + NatToString(0);
    ZeroDenominatorText(a, s);
    assert ManhuavnRaterRating(Str(s)).None?;
  }

  lemma ZeroDenominatorText(a: nat, s: string)
    requires s == NatToString(a) + "/" + NatToString(0)
    ensures SlashRating(s).None? && s != "N/A" && '/' in s
  {
    var d := NatToString(a);
    SlashPartsOfNats(a, 0);
    ZeroDenominator(s, a);
    assert s[|d|] == '/';
    assert IsDigit(d[0]);
  }

  lemma ZeroDenominator(s: string, a: nat)
    requires Split(s, "/") == [NatToString(a), NatToString(0)]
    ensures SlashRating(s).None?
  {
    SlashOfParts(s, NatToString(a), NatToString(0));
    ParseFloatOfNat(0);
  }

  /** A more confident rating never lowers the rating share, as long as the rating is positive. */
  lemma RatingScoreMonotone(rating: real, points: real, c: real, c': real)
    requires rating > 0.0 && points > 0.0 && 0.0 < c < c' <= 1.0
    ensures RatingScore(rating, points, c) < RatingScore(rating, points, c')
  {
    var k := rating / 10.0 * points;
    assert k > 0.0;
    assert k * c' - k * c == k * (c' - c);
  }

  /**
   * The first rating can lower the Manhuavn base rating: with more than 1000 followers, one
   * rating has a confidence below the 0.1 given to a comic with none.
   */
  lemma ManhuavnFirstRatingLowers(norm: LogNorm, c: Counts, rating: real)
    requires c.follows > 1000.0 && c.ratings == 0.0 && rating > 0.0
    ensures ManhuavnRaterBase(norm, c.(ratings := 1.0), rating) < ManhuavnRaterBase(norm, c, rating)
  {
    var scale := FollowerScale(c.follows);
    assert scale > 10.0;
    FirstRatingCanLowerConfidence(scale);
    RatingScoreMonotone(rating, 4.0, Confidence(1.0, scale), Confidence(0.0, scale));
  }

  // ---------------------------------------------------------------------------
  // NetTruyenRatingCalculator

  /** The four counts, each `x or 0`; a value that is not a number makes the arithmetic raise. */
  function NetTruyenRaterCounts(comic: Dict): (r: Option<Counts>)
    ensures r.Some? ==> r.value.likes == 0.0 && r.value.comments == 0.0
    ensures r.None? <==> (Number(OrZero(Get(comic, "luot_xem", Int(0)))).None? ||
                          Number(OrZero(Get(comic, "luot_theo_doi", Int(0)))).None? ||
                          Number(OrZero(Get(comic, "so_chuong", Int(0)))).None? ||
                          Number(OrZero(Get(comic, "luot_danh_gia", Int(0)))).None?)
  {
    var views := Number(OrZero(Get(comic, "luot_xem", Int(0))));
    var follows := Number(OrZero(Get(comic, "luot_theo_doi", Int(0))));
    var chapters := Number(OrZero(Get(comic, "so_chuong", Int(0))));
    var ratings := Number(OrZero(Get(comic, "luot_danh_gia", Int(0))));
    if views.None? || follows.None? || chapters.None? || ratings.None? then None
    else Some(Counts(views.value, 0.0, follows.value, chapters.value, ratings.value, 0.0))
  }

  /** Views 1 + 2, follows 0.5 + 2 and the rating 4.5 points; all guarded terms, chapters weigh nothing. */
  function NetTruyenRaterBase(norm: LogNorm, c: Counts, rating: real): (r: real)
    ensures ValidNorm(norm) && 0.0 <= rating <= 10.0 ==> 0.0 <= r <= 10.0
  {
    var viewScore := GuardedTerm(norm, c.views, 1000000.0) * 1.0 +
      GuardedTerm(norm, PerChapter(c.views, c.chapters), 50000.0) * 2.0;
    var followerScore := GuardedTerm(norm, c.follows, 100000.0) * 0.5 +
      GuardedTerm(norm, PerChapter(c.follows, c.chapters), 2000.0) * 2.0;
    var chapterScore := GuardedTerm(norm, c.chapters, 500.0) * 0.0;
    viewScore + followerScore + chapterScore + RatingScore(rating, 4.5, Confidence(c.ratings, 100.0))
  }

  /** `NetTruyenRatingCalculator.calculate` */
  function NetTruyenCalculate(norm: LogNorm, comic: Dict): (r: real)
    ensures 0.0 <= r <= 10.0
    ensures NetTruyenRaterCounts(comic).None? ==> r == Fallback
    ensures NetTruyenRatingValue(Get(comic, "rating", Str("0"))).None? ==> r == Fallback
    ensures var rating := NetTruyenRatingValue(Get(comic, "rating", Str("0")));
      ValidNorm(norm) && NetTruyenRaterCounts(comic).Some? && rating.Some? && 0.0 <= rating.value <= 10.0 ==>
        r == NetTruyenRaterBase(norm, NetTruyenRaterCounts(comic).value, rating.value)
  {
    match NetTruyenRatingValue(Get(comic, "rating", Str("0")))
    case None => Fallback
    case Some(rating) =>
      match NetTruyenRaterCounts(comic)
      case None => Fallback
      case Some(c) => Clamp10(NetTruyenRaterBase(norm, c, rating))
  }

  /**
   * A comic without a rating is not given the 5.0 default: the key defaults to the truthy
   * string "0", which parses, so its rating counts as 0.
   */
  lemma NetTruyenMissingRatingIsZero(comic: Dict)
    requires "rating" !in comic
    ensures NetTruyenRatingValue(Get(comic, "rating", Str("0"))) == Some(0.0)
  {
    assert NatToString(0) == "0";
    NumeralRating(0);
  }

  /** A bare numeral `n` is read by `float` and rescaled. */
  lemma NumeralRating(n: nat)
    ensures NetTruyenRatingValue(Str(NatToString(n))) == Some(Rescale(n as real))
  {
    var s := NatToString(n);
    ParseFloatOfNat(n);
  }

  // ---------------------------------------------------------------------------
  // Truyentranh3qRatingCalculator

  predicate Converts(comic: Dict) {
    IntOf(Get(comic, "luot_xem", Int(0))).Some? && IntOf(Get(comic, "luot_thich", Int(0))).Some? &&
    IntOf(Get(comic, "luot_theo_doi", Int(0))).Some? && IntOf(Get(comic, "so_chuong", Int(0))).Some?
  }

  const NoCounts: Counts := Counts(0.0, 0.0, 0.0, 0.0, 0.0, 0.0)

  /** `int()` of the four counts; when any one of them raises, all four become 0. */
  function Truyentranh3qCounts(comic: Dict): (c: Counts)
    ensures c.ratings == 0.0 && c.comments == 0.0
    ensures Converts(comic) ==> c.views == IntOf(Get(comic, "luot_xem", Int(0))).value as real
    ensures Converts(comic) ==> c.chapters == IntOf(Get(comic, "so_chuong", Int(0))).value as real
  {
    if Converts(comic) then
      Counts(
        IntOf(Get(comic, "luot_xem", Int(0))).value as real,
        IntOf(Get(comic, "luot_thich", Int(0))).value as real,
        IntOf(Get(comic, "luot_theo_doi", Int(0))).value as real,
        IntOf(Get(comic, "so_chuong", Int(0))).value as real, 0.0, 0.0)
    else NoCounts
  }

  /** Views 0.5 + 4.5, likes 0.5 + 2.5 and follows 1 + 1 points; unguarded terms, chapters weigh nothing. */
  function Truyentranh3qBase(norm: LogNorm, c: Counts): (r: real)
    ensures ValidNorm(norm) && NonNegative(c) ==> 0.0 <= r <= 10.0
  {
    var viewScore := Term(norm, c.views, 200000.0) * 0.5 + Term(norm, PerChapter(c.views, c.chapters), 10000.0) * 4.5;
    var likeScore := Term(norm, c.likes, 30000.0) * 0.5 + Term(norm, PerChapter(c.likes, c.chapters), 50.0) * 2.5;
    var followScore := Term(norm, c.follows, 60000.0) * 1.0 + Term(norm, PerChapter(c.follows, c.chapters), 100.0) * 1.0;
    viewScore + likeScore + followScore + Term(norm, c.chapters, 500.0) * 0.0
  }

  /** The rating and the comic it was stored into. */
  datatype Stored = Stored(rating: real, comic: Dict)

  /** `Truyentranh3qRatingCalculator.calculate`, which also stores its result under "base_rating". */
  function Truyentranh3qCalculate(norm: LogNorm, comic: Dict): (r: Stored)
    ensures 0.0 <= r.rating <= 10.0
    ensures "base_rating" in r.comic && r.comic["base_rating"] == Float(r.rating)
    ensures r.comic.Keys == comic.Keys + {"base_rating"}
    ensures forall k :: k in comic && k != "base_rating" ==> r.comic[k] == comic[k]
    ensures ValidNorm(norm) && NonNegative(Truyentranh3qCounts(comic)) ==>
      r.rating == Truyentranh3qBase(norm, Truyentranh3qCounts(comic))
  {
    var rating := Clamp10(Truyentranh3qBase(norm, Truyentranh3qCounts(comic)));
    Stored(rating, comic["base_rating" := Float(rating)])
  }

  /** A comic with one unconvertible count is rated 0: all four counts are dropped together. */
  lemma Truyentranh3qAllOrNothing(norm: LogNorm, comic: Dict)
    requires ValidNorm(norm) && !Converts(comic)
    ensures Truyentranh3qCalculate(norm, comic).rating == 0.0
  {
    var c := Truyentranh3qCounts(comic);
    assert c == NoCounts;
    assert PerChapter(0.0, 0.0) == 0.0;
    assert Truyentranh3qBase(norm, c) == 0.0;
  }
}
