/**
 * The shared pieces of every rating formula: the rating-string normalisation, the
 * rating confidence, the per-chapter metrics, the sentiment blend and the final clamp;
 * then `ComicRatingCalculator` of the analyzer package with its four formulas and its
 * story sentiment rating.
 *
 * The logarithmic normalisation `log10(x + 1) / log10(cap)` is a function parameter
 * `norm`, assumed only to vanish at 0 and to be non-negative for non-negative counts; each
 * formula caps it at 1 exactly as the source does with `min(1.0, ...)`.
 */
module Ratings {
  import opened Base
  import opened Text
  import opened PyNum

  // ---------------------------------------------------------------------------
  // Normalised terms

  /** `log10(x + 1) / log10(cap)`: the formulas' logarithmic normalisation, left uninterpreted. */
  type LogNorm = (real, real) -> real

  /** What the formulas rely on: the ratio is 0 for a zero count and non-negative for any count when the cap exceeds 1. */
  ghost predicate ValidNorm(norm: LogNorm) {
    (forall cap :: norm(0.0, cap) == 0.0) &&
    (forall x, cap :: x >= 0.0 && cap > 1.0 ==> norm(x, cap) >= 0.0)
  }

  /** `min(1.0, log10(x + 1) / log10(cap))` */
  function Term(norm: LogNorm, x: real, cap: real): (r: real)
    ensures r <= 1.0
    ensures ValidNorm(norm) && x >= 0.0 && cap > 1.0 ==> 0.0 <= r
    ensures ValidNorm(norm) && x == 0.0 ==> r == 0.0
  {
    MinReal(1.0, norm(x, cap))
  }

  /** The same term guarded by `if x > 0 else 0`, as the stand-alone raters write it. */
  function GuardedTerm(norm: LogNorm, x: real, cap: real): (r: real)
    ensures r <= 1.0
    ensures ValidNorm(norm) && cap > 1.0 ==> 0.0 <= r
    ensures x <= 0.0 ==> r == 0.0
    ensures x > 0.0 ==> r == Term(norm, x, cap)
  {
    if x > 0.0 then Term(norm, x, cap) else 0.0
  }

  /** `x / max(1, chapters)`: defined for every chapter count, and `x` itself without chapters. */
  function PerChapter(x: real, chapters: real): (r: real)
    ensures chapters <= 1.0 ==> r == x
    ensures chapters >= 1.0 ==> r * chapters == x
    ensures x >= 0.0 ==> r >= 0.0
    ensures r > 0.0 <==> x > 0.0
  {
    x / (if chapters >= 1.0 then chapters else 1.0)
  }

  /** The counts a formula reads, as numbers; a formula that does not read a count leaves it 0. */
  datatype Counts = Counts(views: real, likes: real, follows: real, chapters: real, ratings: real, comments: real)

  predicate NonNegative(c: Counts) {
    c.views >= 0.0 && c.likes >= 0.0 && c.follows >= 0.0 && c.chapters >= 0.0 && c.ratings >= 0.0
  }

  // ---------------------------------------------------------------------------
  // Rating strings

  /** A site rating on a 10-point scale: above 10 it was out of 100, at most 5 it was out of 5. */
  function Rescale(v: real): (r: real)
    ensures 0.0 <= v <= 100.0 ==> 0.0 <= r <= 10.0
    ensures 5.0 < v <= 10.0 ==> r == v
  {
    if v > 10.0 then v / 10.0 else if v <= 5.0 then v * 2.0 else v
  }

  /** A rating on the 5-point scale lands on the 10-point one at twice its value, and 100-point ratings at a tenth. */
  lemma RescaleScales(v: real)
    ensures 0.0 <= v <= 5.0 ==> Rescale(v) == 2.0 * v
    ensures 10.0 < v ==> Rescale(v) * 10.0 == v
  {
  }

  /** `float(a) / float(b) * 10` for "a/b"; `None` where Python raises (a bad numeral, a zero denominator). */
  function SlashRating(s: string): (r: Option<real>) {
    var parts := Split(s, "/");
    if |parts| < 2 then None else Fraction(ParseFloat(parts[0]), ParseFloat(parts[1]))
  }

  /** `a / b * 10` of two conversions, failing when either failed or `b` is zero. */
  function Fraction(a: Option<real>, b: Option<real>): (r: Option<real>)
    ensures r.Some? <==> a.Some? && b.Some? && b.value != 0.0
  {
    if a.Some? && b.Some? && b.value != 0.0 then Some(a.value / b.value * 10.0) else None
  }

  lemma SlashPartsOfNats(a: nat, b: nat)
    ensures Split(NatToString(a) + "/" + NatToString(b), "/") == [NatToString(a), NatToString(b)]
  {
    SlashParts(NatToString(a), NatToString(b));
  }

  lemma SlashOfNatParts(s: string, a: nat, b: nat)
    requires b > 0
    requires Split(s, "/") == [NatToString(a), NatToString(b)]
    ensures SlashRating(s) == Some((a as real) / (b as real) * 10.0)
  {
    SlashOfParts(s, NatToString(a), NatToString(b));
    ParseFloatOfNat(a);
    ParseFloatOfNat(b);
  }

  /** "a/b" with numerals `a` and `b > 0` rates `a / b * 10`. */
  lemma SlashRatingOfNats(a: nat, b: nat)
    requires b > 0
    ensures SlashRating(NatToString(a) + "/" + NatToString(b)) == Some((a as real) / (b as real) * 10.0)
  {
    SlashPartsOfNats(a, b);
    SlashOfNatParts(NatToString(a) + "/" + NatToString(b), a, b);
  }

  lemma SlashParts(x: string, y: string)
    requires AllDigits(x) && AllDigits(y)
    ensures Split(x + "/" + y, "/") == [x, y]
  {
    assert '/' !in x && '/' !in y;
    SplitChar(x, '/', y);
    SplitNoSep(y, '/');
  }

  lemma SlashOfParts(s: string, x: string, y: string)
    requires Split(s, "/") == [x, y]
    ensures SlashRating(s) == Fraction(ParseFloat(x), ParseFloat(y))
  {
  }

  /** The `float(rating)` path: the parsed value rescaled, or the default 5.0 when `float` raises. */
  function FloatRating(v: Value): (r: real)
    ensures v.Null? ==> r == 5.0
  {
    match v
    case Int(i) => Rescale(i as real)
    case Float(f) => Rescale(f)
    case Str(s) => (match ParseFloat(s) case Some(x) => Rescale(x) case None => 5.0)
    case Null => 5.0
  }

  predicate HasSlash(v: Value) {
    v.Str? && '/' in v.s
  }

  /**
   * The NetTruyen rule (`rating` defaulting to '0'): a truthy "a/b" is a fraction, another
   * truthy value goes through `float`, a falsy one is 5.0. `None` means the fraction raised,
   * which escapes to the caller.
   */
  function NetTruyenRatingValue(v: Value): (r: Option<real>)
    ensures !Truthy(v) ==> r == Some(5.0)
    ensures !HasSlash(v) ==> r.Some?
  {
    if Truthy(v) && HasSlash(v) then SlashRating(v.s)
    else if Truthy(v) then Some(FloatRating(v))
    else Some(5.0)
  }

  const NotRated: Value := Str("N/A")

  /** The Manhuavn rule (`rating` defaulting to "N/A"): "N/A" is 5.0, else the same fraction and `float` paths. */
  function ManhuavnRatingValue(v: Value): (r: Option<real>)
    ensures v == NotRated ==> r == Some(5.0)
    ensures !HasSlash(v) ==> r.Some?
  {
    if v != NotRated && HasSlash(v) then SlashRating(v.s)
    else if v != NotRated then Some(FloatRating(v))
    else Some(5.0)
  }

  /** A text rating on any of the three scales, between 0 and 100, lands on the 10-point scale. */
  lemma RatingValueInRange(v: Value)
    requires v.Str? && !HasSlash(v) && Truthy(v)
    requires ParseFloat(v.s).Some? ==> 0.0 <= ParseFloat(v.s).value <= 100.0
    ensures 0.0 <= NetTruyenRatingValue(v).value <= 10.0
    ensures v != NotRated ==> 0.0 <= ManhuavnRatingValue(v).value <= 10.0
  {
  }

  // ---------------------------------------------------------------------------
  // Confidence, blend, clamp

  /** `min(1.0, count / scale) if count > 0 else 0.1` */
  function Confidence(count: real, scale: real): (r: real)
    requires scale > 0.0
    ensures 0.0 < r <= 1.0
    ensures count <= 0.0 ==> r == 0.1
    ensures count >= scale ==> r == 1.0
    ensures 0.0 < count < scale ==> r * scale == count
  {
    if count > 0.0 then
      if count >= scale then DivAtLeastOne(count, scale); MinReal(1.0, count / scale) else MinReal(1.0, count / scale)
    else 0.1
  }

  lemma DivAtLeastOne(x: real, d: real)
    requires x >= d > 0.0
    ensures x / d >= 1.0
  {
    assert (x / d) * d == x;
  }

  lemma ScaleWithin(d: real, w: real)
    requires d >= 0.0 && 0.0 <= w <= 1.0
    ensures 0.0 <= d * w <= d
  {
  }

  /** Once there is a rating, more ratings never lower the confidence. */
  lemma ConfidenceMonotone(a: real, b: real, scale: real)
    requires scale > 0.0 && 0.0 < a <= b
    ensures Confidence(a, scale) <= Confidence(b, scale)
  {
    assert a / scale <= b / scale;
  }

  /** But the first rating can lower it: with a scale above 10, one rating counts for less than the 0.1 of none. */
  lemma FirstRatingCanLowerConfidence(scale: real)
    requires scale > 10.0
    ensures Confidence(1.0, scale) < Confidence(0.0, scale)
  {
    var c := Confidence(1.0, scale);
    assert c * scale == 1.0;
  }

  /** `weight * min(1.0, comments / 50)` */
  function AdjustedWeight(weight: real, comments: real): (r: real)
    ensures 0.0 <= weight ==> (comments >= 0.0 ==> 0.0 <= r) && r <= weight
    ensures comments >= 50.0 ==> r == weight
  {
    weight * MinReal(1.0, comments / 50.0)
  }

  /** `a * (1 - w) + b * w` */
  function Mix(a: real, b: real, w: real): real {
    a * (1.0 - w) + b * w
  }

  /** `base * (1 - w) + sentiment * w` with the adjusted weight when there are comments, else `base`. */
  function Blend(base: real, sentiment: real, weight: real, comments: real): (r: real) {
    if comments > 0.0 then Mix(base, sentiment, AdjustedWeight(weight, comments)) else base
  }

  /** With a weight in [0, 1] the blend lies between the base rating and the sentiment rating. */
  lemma BlendBetween(base: real, sentiment: real, weight: real, comments: real)
    requires 0.0 <= weight <= 1.0
    ensures var b := Blend(base, sentiment, weight, comments);
      MinReal(base, sentiment) <= b <= (if base >= sentiment then base else sentiment)
  {
    if comments > 0.0 {
      var w := AdjustedWeight(weight, comments);
      assert 0.0 <= w <= 1.0;
      BetweenOfConvex(base, sentiment, w);
    }
  }

  /** A convex combination lies between its two ends. */
  lemma BetweenOfConvex(a: real, b: real, w: real)
    requires 0.0 <= w <= 1.0
    ensures MinReal(a, b) <= Mix(a, b, w) <= (if a >= b then a else b)
  {
    if a <= b {
      Toward(a, b, w);
    } else {
      Toward(b, a, 1.0 - w);
      MixSwap(a, b, w);
    }
  }

  lemma MixSwap(a: real, b: real, w: real)
    ensures Mix(a, b, w) == Mix(b, a, 1.0 - w)
  {
  }

  /** Moving a fraction `w` of the way from `a` to a larger `b` stays between them. */
  lemma Toward(a: real, b: real, w: real)
    requires a <= b && 0.0 <= w <= 1.0
    ensures a <= Mix(a, b, w) <= b
  {
    var p := Part(b - a, w);
    assert Mix(a, b, w) == a + p;
  }

  lemma Part(d: real, w: real) returns (p: real)
    requires d >= 0.0 && 0.0 <= w <= 1.0
    ensures p == d * w && 0.0 <= p <= d
  {
    p := d * w;
  }

  /** `min(10.0, max(0.0, x))` */
  function Clamp10(x: real): (r: real)
    ensures 0.0 <= r <= 10.0
    ensures 0.0 <= x <= 10.0 ==> r == x
  {
    Clamp(0.0, 10.0, x)
  }

  /** The final rating of the analyzer package: the blend, clamped to [0, 10]. */
  function FinalRating(base: real, sentiment: real, weight: real, comments: real): (r: real)
    ensures 0.0 <= r <= 10.0
    ensures comments <= 0.0 ==> r == Clamp10(base)
  {
    Clamp10(Blend(base, sentiment, weight, comments))
  }

  /** Ratings already on the scale need no clamping: the final rating is the blend itself. */
  lemma FinalIsBlendOnScale(base: real, sentiment: real, weight: real, comments: real)
    requires 0.0 <= weight <= 1.0 && 0.0 <= base <= 10.0 && 0.0 <= sentiment <= 10.0
    ensures FinalRating(base, sentiment, weight, comments) == Blend(base, sentiment, weight, comments)
  {
    BlendBetween(base, sentiment, weight, comments);
  }

  /** With 50 comments or more the sentiment weight is no longer reduced. */
  lemma FullWeightFromFifty(base: real, sentiment: real, weight: real, comments: real)
    requires comments >= 50.0
    ensures Blend(base, sentiment, weight, comments) == Mix(base, sentiment, weight)
  {
  }

  /** The rating share of the formulas that read a site rating: `(rating / 10) * points * confidence`. */
  function RatingScore(rating: real, points: real, confidence: real): (r: real)
    requires points >= 0.0 && 0.0 < confidence <= 1.0
    ensures 0.0 <= rating <= 10.0 ==> 0.0 <= r <= points
  {
    var share := rating / 10.0;
    if 0.0 <= rating <= 10.0 then
      ScaleWithin(points, share);
      assert share * points == points * share;
      ScaleWithin(share * points, confidence);
      share * points * confidence
    else share * points * confidence
  }

  // ---------------------------------------------------------------------------
  // ComicRatingCalculator

  datatype Formula = NetTruyenFormula | TruyenQQFormula | ManhuavnFormula | GenericFormula

  /** `calculate_comprehensive_rating` chooses the formula by source name. */
  function FormulaFor(source: string): (f: Formula)
    ensures f == GenericFormula <==> source != "nettruyen" && source != "truyenqq" && source != "manhuavn"
    ensures source == "nettruyen" ==> f == NetTruyenFormula
    ensures source == "truyenqq" ==> f == TruyenQQFormula
    ensures source == "manhuavn" ==> f == ManhuavnFormula
  {
    if source == "nettruyen" then NetTruyenFormula
    else if source == "truyenqq" then TruyenQQFormula
    else if source == "manhuavn" then ManhuavnFormula
    else GenericFormula
  }

  datatype Breakdown = Breakdown(base: real, final: real)

  /**
   * Steps 6-7 of every formula: `story.get('sentiment_rating', 5.0)` blended in when the comment
   * count is positive, then clamped. `None` where the sentiment rating is not a number and the
   * blend raises.
   */
  function Rate(base: real, story: Dict, weight: real, comments: real): (r: Option<Breakdown>)
    ensures r.Some? ==> r.value.base == base && 0.0 <= r.value.final <= 10.0
    ensures comments <= 0.0 ==> r == Some(Breakdown(base, Clamp10(base)))
    ensures r.None? <==> comments > 0.0 && Number(Get(story, "sentiment_rating", Float(5.0))).None?
  {
    if comments > 0.0 then
      match Number(Get(story, "sentiment_rating", Float(5.0)))
      case None => None
      case Some(sentiment) => Some(Breakdown(base, FinalRating(base, sentiment, weight, comments)))
    else Some(Breakdown(base, Clamp10(base)))
  }

  /** The final rating of a successful formula is on the scale, and equals the clamped base rating without comments. */
  predicate Finished(r: Option<Breakdown>, comments: real) {
    r.Some? ==> 0.0 <= r.value.final <= 10.0 && (comments <= 0.0 ==> r.value.final == Clamp10(r.value.base))
  }

  /** `max(0, int(x) if x else 0)`; `None` where `int` raises. */
  function Coerce(v: Value): (r: Option<nat>)
    ensures !Truthy(v) ==> r == Some(0)
    ensures r.None? <==> Truthy(v) && IntOf(v).None?
    ensures r.Some? && Truthy(v) ==> r.value == MaxInt(0, IntOf(v).value)
  {
    if !Truthy(v) then Some(0)
    else
      match IntOf(v)
      case Some(i) => Some(if i > 0 then i else 0)
      case None => None
  }

  /** The generic formula's four coerced counts; the comment count is `x or 0`. */
  function GenericCounts(story: Dict): (r: Option<Counts>)
    ensures r.Some? ==> NonNegative(r.value) && r.value.ratings == 0.0
  {
    var views := Coerce(Get(story, "views", Int(0)));
    var likes := Coerce(Get(story, "likes", Int(0)));
    var follows := Coerce(Get(story, "follows", Int(0)));
    var chapters := Coerce(Get(story, "chapter_count", Int(0)));
    var comments := Number(OrZero(Get(story, "comment_count", Int(0))));
    if views.None? || likes.None? || follows.None? || chapters.None? || comments.None? then None
    else Some(Counts(views.value as real, likes.value as real, follows.value as real, chapters.value as real, 0.0, comments.value))
  }

  /** The generic formula: 3 + 3 + 3 + 1 points for views, likes, follows and chapters. */
  function GenericBase(norm: LogNorm, c: Counts): (r: real)
    ensures ValidNorm(norm) && NonNegative(c) ==> 0.0 <= r <= 10.0
  {
    Term(norm, c.views, 1000000.0) * 3.0 + Term(norm, c.likes, 20000.0) * 3.0 +
    Term(norm, c.follows, 50000.0) * 3.0 + Term(norm, c.chapters, 500.0) * 1.0
  }

  /** `_generic_rating`: `None` where a coercion raises, or the blend does. */
  function GenericRating(norm: LogNorm, story: Dict, weight: real): (r: Option<Breakdown>)
    ensures GenericCounts(story).None? ==> r.None?
    ensures r.Some? ==> Finished(r, GenericCounts(story).value.comments)
    ensures r.Some? && ValidNorm(norm) ==> 0.0 <= r.value.base <= 10.0
  {
    match GenericCounts(story)
    case None => None
    case Some(c) => Rate(GenericBase(norm, c), story, weight, c.comments)
  }

  /** `_nettruyen_rating` reads views, chapters and ratings as they are, and follows from either key. */
  function NetTruyenCounts(story: Dict): (r: Option<Counts>) {
    var views := Number(Get(story, "views", Int(0)));
    var follows := Number(Or(Get(story, "follows", Int(0)), OrZero(Get(story, "followers", Int(0)))));
    var chapters := Number(Get(story, "chapter_count", Int(0)));
    var ratings := Number(OrZero(Get(story, "rating_count", Int(0))));
    var comments := Number(OrZero(Get(story, "comment_count", Int(0))));
    if views.None? || follows.None? || chapters.None? || ratings.None? || comments.None? then None
    else Some(Counts(views.value, 0.0, follows.value, chapters.value, ratings.value, comments.value))
  }

  /** The NetTruyen formula: views 1 + 2, follows 0.5 + 2, chapters 0.5 and the rating 4 points, confidence over 100 ratings. */
  function NetTruyenBase(norm: LogNorm, c: Counts, rating: real): (r: real)
    ensures ValidNorm(norm) && NonNegative(c) && 0.0 <= rating <= 10.0 ==> 0.0 <= r <= 10.0
  {
    var viewScore := Term(norm, c.views, 10000.0) * 1.0 + Term(norm, PerChapter(c.views, c.chapters), 10000.0) * 2.0;
    var followerScore := Term(norm, c.follows, 1000.0) * 0.5 + Term(norm, PerChapter(c.follows, c.chapters), 1000.0) * 2.0;
    var chapterScore := Term(norm, c.chapters, 500.0) * 0.5;
    viewScore + followerScore + chapterScore + RatingScore(rating, 4.0, Confidence(c.ratings, 100.0))
  }

  /** `_nettruyen_rating`: `None` where a count is not a number, the rating fraction raises, or the blend does. */
  function NetTruyenFormulaRating(norm: LogNorm, story: Dict, weight: real): (r: Option<Breakdown>)
    ensures NetTruyenCounts(story).None? || NetTruyenRatingValue(Get(story, "rating", Str("0"))).None? ==> r.None?
    ensures r.Some? ==> Finished(r, NetTruyenCounts(story).value.comments)
    ensures (r.Some? && ValidNorm(norm) && NonNegative(NetTruyenCounts(story).value) &&
             0.0 <= NetTruyenRatingValue(Get(story, "rating", Str("0"))).value <= 10.0) ==>
            0.0 <= r.value.base <= 10.0
  {
    match NetTruyenCounts(story)
    case None => None
    case Some(c) =>
      match NetTruyenRatingValue(Get(story, "rating", Str("0")))
      case None => None
      case Some(rating) => Rate(NetTruyenBase(norm, c, rating), story, weight, c.comments)
  }

  /** `_truyenqq_rating` reads every count from its English key, else its Vietnamese one, else 0. */
  function TruyenQQCounts(story: Dict): (r: Option<Counts>) {
    var views := Number(Or(Get(story, "views", Int(0)), OrZero(Get(story, "luot_xem", Int(0)))));
    var likes := Number(Or(Get(story, "likes", Int(0)), OrZero(Get(story, "luot_thich", Int(0)))));
    var follows := Number(Or(Get(story, "follows", Int(0)), OrZero(Get(story, "luot_theo_doi", Int(0)))));
    var chapters := Number(Or(Get(story, "chapter_count", Int(0)), OrZero(Get(story, "so_chuong", Int(0)))));
    var comments := Number(Or(Get(story, "comment_count", Int(0)), OrZero(Get(story, "so_binh_luan", Int(0)))));
    if views.None? || likes.None? || follows.None? || chapters.None? || comments.None? then None
    else Some(Counts(views.value, likes.value, follows.value, chapters.value, 0.0, comments.value))
  }

  /** The TruyenQQ formula: views 1 + 3, likes 0.5 + 2.5 and follows 0.5 + 2.5 points; chapters weigh nothing. */
  function TruyenQQBase(norm: LogNorm, c: Counts): (r: real)
    ensures ValidNorm(norm) && NonNegative(c) ==> 0.0 <= r <= 10.0
  {
    var viewScore := Term(norm, c.views, 2000000.0) * 1.0 + Term(norm, PerChapter(c.views, c.chapters), 100000.0) * 3.0;
    var likeScore := Term(norm, c.likes, 30000.0) * 0.5 + Term(norm, PerChapter(c.likes, c.chapters), 80.0) * 2.5;
    var followerScore := Term(norm, c.follows, 60000.0) * 0.5 + Term(norm, PerChapter(c.follows, c.chapters), 500.0) * 2.5;
    viewScore + likeScore + followerScore + Term(norm, c.chapters, 500.0) * 0.0
  }

  /** `_truyenqq_rating`: `None` where a count is not a number or the blend raises. */
  function TruyenQQFormulaRating(norm: LogNorm, story: Dict, weight: real): (r: Option<Breakdown>)
    ensures TruyenQQCounts(story).None? ==> r.None?
    ensures r.Some? ==> Finished(r, TruyenQQCounts(story).value.comments)
    ensures r.Some? && ValidNorm(norm) && NonNegative(TruyenQQCounts(story).value) ==> 0.0 <= r.value.base <= 10.0
  {
    match TruyenQQCounts(story)
    case None => None
    case Some(c) => Rate(TruyenQQBase(norm, c), story, weight, c.comments)
  }

  /** `_manhuavn_rating` reads views and the comment count as they are, follows and chapters from either key. */
  function ManhuavnCounts(story: Dict): (r: Option<Counts>) {
    var views := Number(Get(story, "views", Int(0)));
    var follows := Number(Or(Get(story, "follows", Int(0)), OrZero(Get(story, "followers", Int(0)))));
    var chapters := Number(Or(Get(story, "chapter_count", Int(0)), OrZero(Get(story, "chapters", Int(0)))));
    var ratings := Number(OrZero(Get(story, "rating_count", Int(0))));
    var comments := Number(Get(story, "comment_count", Int(0)));
    if views.None? || follows.None? || chapters.None? || ratings.None? || comments.None? then None
    else Some(Counts(views.value, 0.0, follows.value, chapters.value, ratings.value, comments.value))
  }

  /** The Manhuavn formula: views 1 + 2.5, follows 0.5 + 2 and the rating 4 points, confidence over 10 ratings. */
  function ManhuavnBase(norm: LogNorm, c: Counts, rating: real): (r: real)
    ensures ValidNorm(norm) && NonNegative(c) && 0.0 <= rating <= 10.0 ==> 0.0 <= r <= 10.0
  {
    var viewScore := Term(norm, c.views, 1000000.0) * 1.0 + Term(norm, PerChapter(c.views, c.chapters), 1000.0) * 2.5;
    var followerScore := Term(norm, c.follows, 30000.0) * 0.5 + Term(norm, PerChapter(c.follows, c.chapters), 100.0) * 2.0;
    viewScore + followerScore + Term(norm, c.chapters, 500.0) * 0.0 + RatingScore(rating, 4.0, Confidence(c.ratings, 10.0))
  }

  /** `_manhuavn_rating`: `None` where a count is not a number, the rating fraction raises, or the blend does. */
  function ManhuavnFormulaRating(norm: LogNorm, story: Dict, weight: real): (r: Option<Breakdown>)
    ensures ManhuavnCounts(story).None? || ManhuavnRatingValue(Get(story, "rating", NotRated)).None? ==> r.None?
    ensures r.Some? ==> Finished(r, ManhuavnCounts(story).value.comments)
    ensures (r.Some? && ValidNorm(norm) && NonNegative(ManhuavnCounts(story).value) &&
             0.0 <= ManhuavnRatingValue(Get(story, "rating", NotRated)).value <= 10.0) ==>
            0.0 <= r.value.base <= 10.0
  {
    match ManhuavnCounts(story)
    case None => None
    case Some(c) =>
      match ManhuavnRatingValue(Get(story, "rating", NotRated))
      case None => None
      case Some(rating) => Rate(ManhuavnBase(norm, c, rating), story, weight, c.comments)
  }

  /** `calculate_comprehensive_rating(story, source, weight)`; `None` where the chosen formula raises. */
  function ComprehensiveRating(norm: LogNorm, story: Dict, source: string, weight: real): (r: Option<Breakdown>)
    ensures r.Some? ==> 0.0 <= r.value.final <= 10.0
    ensures FormulaFor(source) == GenericFormula ==> r == GenericRating(norm, story, weight)
    ensures source == "nettruyen" ==> r == NetTruyenFormulaRating(norm, story, weight)
    ensures source == "truyenqq" ==> r == TruyenQQFormulaRating(norm, story, weight)
    ensures source == "manhuavn" ==> r == ManhuavnFormulaRating(norm, story, weight)
  {
    match FormulaFor(source)
    case NetTruyenFormula => NetTruyenFormulaRating(norm, story, weight)
    case TruyenQQFormula => TruyenQQFormulaRating(norm, story, weight)
    case ManhuavnFormula => ManhuavnFormulaRating(norm, story, weight)
    case GenericFormula => GenericRating(norm, story, weight)
  }

  /** A story without a comment count is rated by its clamped base rating alone, whatever the source. */
  lemma NoCommentsNoSentiment(norm: LogNorm, story: Dict, source: string, weight: real)
    requires "comment_count" !in story && "so_binh_luan" !in story
    ensures var r := ComprehensiveRating(norm, story, source, weight);
      r.Some? ==> r.value.final == Clamp10(r.value.base)
  {
    var r := ComprehensiveRating(norm, story, source, weight);
    if r.Some? {
      match FormulaFor(source)
      case NetTruyenFormula => assert NetTruyenCounts(story).value.comments == 0.0;
      case TruyenQQFormula => assert TruyenQQCounts(story).value.comments == 0.0;
      case ManhuavnFormula => assert ManhuavnCounts(story).value.comments == 0.0;
      case GenericFormula => assert GenericCounts(story).value.comments == 0.0;
    }
  }

  // ---------------------------------------------------------------------------
  // Story sentiment

  /** `count / total if total > 0 else 0` */
  function Ratio(count: nat, total: nat): (r: real)
    ensures total == 0 ==> r == 0.0
    ensures count <= total ==> 0.0 <= r <= 1.0
    ensures total > 0 ==> r * (total as real) == count as real
  {
    if total > 0 then (count as real) / (total as real) else 0.0
  }

  /** `min(10, max(0, 2 * (8p - k n + 6u)))`; `k` is 5 in the analyzer package and the TruyenQQ script, 4 in the NetTruyen one. */
  function SentimentRating(p: real, n: real, u: real, k: real): (r: real)
    ensures 0.0 <= r <= 10.0
    ensures 0.0 <= (p * 8.0 - n * k + u * 6.0) * 2.0 <= 10.0 ==> r == (p * 8.0 - n * k + u * 6.0) * 2.0
  {
    Clamp10((p * 8.0 - n * k + u * 6.0) * 2.0)
  }

  /** `calculate_sentiment_rating(p, n, u)` */
  function CalculateSentimentRating(p: real, n: real, u: real): (r: real)
    ensures 0.0 <= r <= 10.0
  {
    SentimentRating(p, n, u, 5.0)
  }

  /** More positive comments never lower the rating; more negative ones never raise it. */
  lemma SentimentMonotone(p: real, p': real, n: real, n': real, u: real, k: real)
    requires p <= p' && n' <= n && k >= 0.0
    ensures SentimentRating(p, n, u, k) <= SentimentRating(p', n', u, k)
  {
    ScaleMonotone(n', n, k);
    RawScoreMonotone(p, p', n' * k, n * k, u);
  }

  lemma RawScoreMonotone(p: real, p': real, less: real, more: real, u: real)
    requires p <= p' && less <= more
    ensures (p * 8.0 - more + u * 6.0) * 2.0 <= (p' * 8.0 - less + u * 6.0) * 2.0
  {
  }

  lemma ScaleMonotone(a: real, b: real, k: real)
    requires a <= b && k >= 0.0
    ensures a * k <= b * k
  {
    assert b * k - a * k == (b - a) * k;
  }

  /** Only negative comments give 0; only positive ones, and also only neutral ones, give the top mark 10. */
  lemma SentimentExtremes(k: real)
    requires k >= 0.0
    ensures SentimentRating(0.0, 1.0, 0.0, k) == 0.0
    ensures SentimentRating(1.0, 0.0, 0.0, k) == 10.0
    ensures SentimentRating(0.0, 0.0, 1.0, k) == 10.0
  {
  }
}
