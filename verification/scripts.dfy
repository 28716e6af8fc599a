/**
 * The comprehensive ratings and story sentiment scores of the two stand-alone scripts,
 * `rating_nettruyen.py` and `rating_truyenqq.py`. Unlike the analyzer package they catch
 * every error and answer a base rating of 0 with a comprehensive rating of 5.0.
 */
module ScriptRatings {
  import opened Base
  import opened Text
  import opened PyNum
  import opened NumberParsing
  import opened Ratings

  /** What both scripts answer when the computation raises: base 0, comprehensive 5.0. */
  const Failed: Breakdown := Breakdown(0.0, 5.0)

  // ---------------------------------------------------------------------------
  // rating_nettruyen.py

  /** The four counts `x or 0` and the raw comment count; `None` where one is not a number. */
  function NetTruyenScriptCounts(story: Dict): (r: Option<Counts>)
    ensures r.Some? ==> r.value.likes == 0.0
    ensures r.None? <==> (Number(OrZero(Get(story, "views", Int(0)))).None? ||
                          Number(OrZero(Get(story, "followers", Int(0)))).None? ||
                          Number(OrZero(Get(story, "chapter_count", Int(0)))).None? ||
                          Number(OrZero(Get(story, "rating_count", Int(0)))).None? ||
                          Number(Get(story, "comment_count", Int(0))).None?)
  {
    var views := Number(OrZero(Get(story, "views", Int(0))));
    var follows := Number(OrZero(Get(story, "followers", Int(0))));
    var chapters := Number(OrZero(Get(story, "chapter_count", Int(0))));
    var ratings := Number(OrZero(Get(story, "rating_count", Int(0))));
    var comments := Number(Get(story, "comment_count", Int(0)));
    if views.None? || follows.None? || chapters.None? || ratings.None? || comments.None? then None
    else Some(Counts(views.value, 0.0, follows.value, chapters.value, ratings.value, comments.value))
  }

  /** Views 1 + 2, follows 0.5 + 2 and the rating 4.5 points; all guarded terms, chapters weigh nothing. */
  function NetTruyenScriptBase(norm: LogNorm, c: Counts, rating: real): (r: real)
    ensures ValidNorm(norm) && 0.0 <= rating <= 10.0 ==> 0.0 <= r <= 10.0
  {
    var viewScore := GuardedTerm(norm, c.views, 10000.0) * 1.0 +
      GuardedTerm(norm, PerChapter(c.views, c.chapters), 10000.0) * 2.0;
    var followerScore := GuardedTerm(norm, c.follows, 1000.0) * 0.5 +
      GuardedTerm(norm, PerChapter(c.follows, c.chapters), 1000.0) * 2.0;
    var chapterScore := GuardedTerm(norm, c.chapters, 500.0) * 0.0;
    viewScore + followerScore + chapterScore + RatingScore(rating, 4.5, Confidence(c.ratings, 100.0))
  }

  /** `min(10, max(0, blend * 1.1))`: the NetTruyen script scales the blend up by a tenth before clamping. */
  function Boosted(base: real, sentiment: real, weight: real, comments: real): (r: real)
    ensures 0.0 <= r <= 10.0
    ensures comments <= 0.0 && base * 1.1 >= 10.0 ==> r == 10.0
    ensures comments <= 0.0 && 0.0 <= base * 1.1 <= 10.0 ==> r == base * 1.1
    ensures comments >= 50.0 ==> r == Clamp10(Mix(base, sentiment, weight) * 1.1)
    ensures 0.0 <= weight <= 1.0 ==>
      Clamp10(MinReal(base, sentiment) * 1.1) <= r <= Clamp10((if base >= sentiment then base else sentiment) * 1.1)
  {
    var r := Clamp10(Blend(base, sentiment, weight, comments) * 1.1);
    if 0.0 <= weight <= 1.0 then
      BlendBetween(base, sentiment, weight, comments);
      r
    else r
  }

  /** The boost saturates: every base rating from 10/1.1 up, about 9.09, ends at 10 when there are no comments. */
  lemma BoostSaturates(base: real, base': real, sentiment: real, weight: real)
    requires 10.0 / 1.1 <= base <= base'
    ensures Boosted(base, sentiment, weight, 0.0) == Boosted(base', sentiment, weight, 0.0) == 10.0
  {
    assert base * 1.1 >= 10.0;
    assert base' * 1.1 >= 10.0;
  }

  /** `rating_nettruyen.calculate_comprehensive_rating(story, weight)` */
  function NetTruyenScriptRating(norm: LogNorm, story: Dict, weight: real): (r: Breakdown)
    ensures 0.0 <= r.final <= 10.0
    ensures NetTruyenScriptCounts(story).None? ==> r == Failed
    ensures NetTruyenRatingValue(Get(story, "rating", Str("0"))).None? ==> r == Failed
    ensures var rating := NetTruyenRatingValue(Get(story, "rating", Str("0")));
      ValidNorm(norm) && rating.Some? && 0.0 <= rating.value <= 10.0 ==> 0.0 <= r.base <= 10.0
    ensures r != Failed && NetTruyenScriptCounts(story).value.comments <= 0.0 ==> r.final == Clamp10(r.base * 1.1)
    ensures var c := NetTruyenScriptCounts(story);
      var s := Number(Get(story, "sentiment_rating", Float(5.0)));
      NetTruyenRatingValue(Get(story, "rating", Str("0"))).Some? && c.Some? && c.value.comments > 0.0 ==>
        (s.None? ==> r == Failed) &&
        (s.Some? ==> r.final == Clamp10(Blend(r.base, s.value, weight, c.value.comments) * 1.1))
  {
    match NetTruyenRatingValue(Get(story, "rating", Str("0")))
    case None => Failed
    case Some(rating) =>
      match NetTruyenScriptCounts(story)
      case None => Failed
      case Some(c) =>
        var base := NetTruyenScriptBase(norm, c, rating);
        if c.comments > 0.0 then
          match Number(Get(story, "sentiment_rating", Float(5.0)))
          case None => Failed
          case Some(sentiment) => Breakdown(base, Boosted(base, sentiment, weight, c.comments))
        else Breakdown(base, Boosted(base, 0.0, weight, c.comments))
  }

  // ---------------------------------------------------------------------------
  // rating_truyenqq.py

  /** The four counts through the script's `extract_number`, which never raises; the comment count as it is. */
  function TruyenQQScriptCounts(story: Dict): (r: Option<Counts>)
    ensures r.Some? ==> r.value.ratings == 0.0
    ensures r.None? <==> Number(Get(story, "so_binh_luan", Int(0))).None?
  {
    var comments := Number(Get(story, "so_binh_luan", Int(0)));
    if comments.None? then None
    else Some(Counts(
      ExtractNumberValue(Get(story, "luot_xem", Int(0))) as real,
      ExtractNumberValue(Get(story, "luot_thich", Int(0))) as real,
      ExtractNumberValue(Get(story, "luot_theo_doi", Int(0))) as real,
      ExtractNumberValue(Get(story, "so_chuong", Int(0))) as real, 0.0, comments.value))
  }

  /** Views 1 + 3, likes 0.5 + 2.5 and follows 0.5 + 2.5 points; all guarded terms, chapters weigh nothing. */
  function TruyenQQScriptBase(norm: LogNorm, c: Counts): (r: real)
    ensures ValidNorm(norm) ==> 0.0 <= r <= 10.0
  {
    var viewScore := GuardedTerm(norm, c.views, 2000000.0) * 1.0 +
      GuardedTerm(norm, PerChapter(c.views, c.chapters), 100000.0) * 3.0;
    var likeScore := GuardedTerm(norm, c.likes, 30000.0) * 0.5 +
      GuardedTerm(norm, PerChapter(c.likes, c.chapters), 80.0) * 2.5;
    var followerScore := GuardedTerm(norm, c.follows, 60000.0) * 0.5 +
      GuardedTerm(norm, PerChapter(c.follows, c.chapters), 500.0) * 2.5;
    viewScore + likeScore + followerScore + GuardedTerm(norm, c.chapters, 500.0) * 0.0
  }

  /**
   * `rating_truyenqq.calculate_comprehensive_rating(story, weight)`: with comments the blend
   * uses the full weight, whatever the number of comments.
   */
  function TruyenQQScriptRating(norm: LogNorm, story: Dict, weight: real): (r: Breakdown)
    ensures 0.0 <= r.final <= 10.0
    ensures TruyenQQScriptCounts(story).None? ==> r == Failed
    ensures ValidNorm(norm) && r != Failed ==> 0.0 <= r.base <= 10.0
    ensures var c := TruyenQQScriptCounts(story);
      c.Some? && c.value.comments <= 0.0 ==> r.final == Clamp10(r.base)
    ensures var c := TruyenQQScriptCounts(story);
      var s := Number(Get(story, "sentiment_rating", Float(5.0)));
      c.Some? && c.value.comments > 0.0 && s.Some? ==> r.final == Clamp10(Mix(r.base, s.value, weight))
    ensures var c := TruyenQQScriptCounts(story);
      var s := Number(Get(story, "sentiment_rating", Float(5.0)));
      c.Some? && c.value.comments > 0.0 && s.None? ==> r == Failed
  {
    match TruyenQQScriptCounts(story)
    case None => Failed
    case Some(c) =>
      var base := TruyenQQScriptBase(norm, c);
      if c.comments > 0.0 then
        match Number(Get(story, "sentiment_rating", Float(5.0)))
        case None => Failed
        case Some(sentiment) => Breakdown(base, Clamp10(Mix(base, sentiment, weight)))
      else Breakdown(base, Clamp10(base))
  }

  /** With a weight in [0, 1] and a sentiment rating on the scale, the TruyenQQ result lies between the base and the sentiment rating. */
  lemma TruyenQQScriptBetween(norm: LogNorm, story: Dict, weight: real, sentiment: real)
    requires ValidNorm(norm) && 0.0 <= weight <= 1.0 && 0.0 <= sentiment <= 10.0
    requires TruyenQQScriptCounts(story).Some? && TruyenQQScriptCounts(story).value.comments > 0.0
    requires Number(Get(story, "sentiment_rating", Float(5.0))) == Some(sentiment)
    ensures var r := TruyenQQScriptRating(norm, story, weight);
      MinReal(r.base, sentiment) <= r.final <= (if r.base >= sentiment then r.base else sentiment)
  {
    var r := TruyenQQScriptRating(norm, story, weight);
    BetweenOfConvex(r.base, sentiment, weight);
  }

  // ---------------------------------------------------------------------------
  // Story sentiment scores

  /**
   * A stored `sentiment` cell as pandas reads it: text, some other value, or
   * missing (`NaN`, which is how a NULL column arrives).
   */
  datatype StoredLabel = LabelText(text: string) | NonText | Missing

  /** The three label names the scripts count. */
  predicate Known(l: string) {
    l == "positive" || l == "negative" || l == "neutral"
  }

  /**
   * `sentiment_map.get(x, x.lower()) if isinstance(x, str) else "neutral"`: the
   * Vietnamese names map to the English ones, other text is lower-cased and kept,
   * and every value that is not text, `NaN` included, becomes "neutral".
   */
  function MapLabel(x: StoredLabel): (l: string)
    ensures !x.LabelText? ==> l == "neutral"
    ensures x.LabelText? && x.text == "Tích cực" ==> l == "positive"
    ensures x.LabelText? && x.text == "Tiêu cực" ==> l == "negative"
    ensures x.LabelText? && x.text == "Trung tính" ==> l == "neutral"
    ensures Known(l) <==> (!x.LabelText? || x.text == "Tích cực" || x.text == "Tiêu cực" ||
                           x.text == "Trung tính" || Known(Lower(x.text)))
  {
    match x
    case LabelText(t) =>
      if t == "Tích cực" then "positive"
      else if t == "Tiêu cực" then "negative"
      else if t == "Trung tính" then "neutral"
      else Lower(t)
    case _ => "neutral"
  }

  /** The column after the mapping. */
  function MapLabels(stored: seq<StoredLabel>): (labels: seq<string>)
    ensures |labels| == |stored|
    ensures forall i | 0 <= i < |stored| :: labels[i] == MapLabel(stored[i])
  {
    seq(|stored|, i requires 0 <= i < |stored| => MapLabel(stored[i]))
  }

  /** `value_counts().get(l, 0)`: the number of comments whose mapped label is `l`. */
  function CountLabel(labels: seq<string>, l: string): (n: nat)
    ensures n <= |labels|
    ensures n == 0 <==> l !in labels
  {
    if labels == [] then 0
    else
      var init := labels[..|labels| - 1];
      assert l in labels <==> l in init || labels[|labels| - 1] == l;
      CountLabel(init, l) + (if labels[|labels| - 1] == l then 1 else 0)
  }

  /** The number of comments whose mapped label is none of the three names. */
  function CountUnknown(labels: seq<string>): (n: nat)
    ensures n <= |labels|
  {
    if labels == [] then 0
    else CountUnknown(labels[..|labels| - 1]) + (if Known(labels[|labels| - 1]) then 0 else 1)
  }

  /** Every comment is counted in exactly one of the three buckets or among the unknown labels. */
  lemma {:induction false} LabelsPartition(labels: seq<string>)
    ensures CountLabel(labels, "positive") + CountLabel(labels, "negative") +
      CountLabel(labels, "neutral") + CountUnknown(labels) == |labels|
  {
    if labels != [] {
      LabelsPartition(labels[..|labels| - 1]);
    }
  }

  /** There are no unknown labels exactly when every label is one of the three names. */
  lemma {:induction false} NoUnknownIffAllKnown(labels: seq<string>)
    ensures CountUnknown(labels) == 0 <==> forall i | 0 <= i < |labels| :: Known(labels[i])
  {
    if labels != [] {
      var init := labels[..|labels| - 1];
      NoUnknownIffAllKnown(init);
      assert forall i | 0 <= i < |init| :: init[i] == labels[i];
    }
  }

  /**
   * The three bucket counts never exceed `total = len(...)`, and reach it exactly
   * when every comment's mapped label is one of the three names.
   */
  lemma BucketsCoverIff(labels: seq<string>)
    ensures CountLabel(labels, "positive") + CountLabel(labels, "negative") +
      CountLabel(labels, "neutral") <= |labels|
    ensures (CountLabel(labels, "positive") + CountLabel(labels, "negative") +
             CountLabel(labels, "neutral") == |labels|) <==> forall i | 0 <= i < |labels| :: Known(labels[i])
  {
    LabelsPartition(labels);
    NoUnknownIffAllKnown(labels);
  }

  /** The positive, negative and neutral ratios of a story's comments. */
  datatype Ratios = Ratios(positive: real, negative: real, neutral: real)

  function RatioSum(r: Ratios): real {
    r.positive + r.negative + r.neutral
  }

  /**
   * `count / total if total > 0 else 0` for each label, over the mapped column.
   * The ratios sum to at most 1, and to exactly 1 when there are comments and
   * every label maps to one of the three names; a label outside the map (say
   * "mixed") counts in `total` but in no bucket.
   */
  function StoryRatios(labels: seq<string>): (r: Ratios)
    ensures labels == [] ==> r == Ratios(0.0, 0.0, 0.0)
    ensures 0.0 <= r.positive <= 1.0 && 0.0 <= r.negative <= 1.0 && 0.0 <= r.neutral <= 1.0
    ensures RatioSum(r) <= 1.0
    ensures labels != [] ==> (RatioSum(r) == 1.0 <==> forall i | 0 <= i < |labels| :: Known(labels[i]))
  {
    var total := |labels|;
    var p := CountLabel(labels, "positive");
    var n := CountLabel(labels, "negative");
    var u := CountLabel(labels, "neutral");
    BucketsCoverIff(labels);
    var r := Ratios(Ratio(p, total), Ratio(n, total), Ratio(u, total));
    if total > 0 then
      SharesOfTotal(p, n, u, total);
      r
    else r
  }

  /** The three shares sum to at most 1, and to exactly 1 when the counts cover the total. */
  lemma SharesOfTotal(p: nat, n: nat, u: nat, total: nat)
    requires total > 0 && p + n + u <= total
    ensures Ratio(p, total) + Ratio(n, total) + Ratio(u, total) <= 1.0
    ensures Ratio(p, total) + Ratio(n, total) + Ratio(u, total) == 1.0 <==> p + n + u == total
  {
    var t := total as real;
    var (x, y, z) := (Ratio(p, total), Ratio(n, total), Ratio(u, total));
    Distribute3(x, y, z, t);
    assert (x + y + z) * t == (p + n + u) as real;
    ScaledBelow(x + y + z, t, (p + n + u) as real);
  }

  lemma Distribute3(x: real, y: real, z: real, t: real)
    ensures (x + y + z) * t == x * t + y * t + z * t
  {
  }

  /** With `s * t == c` and `0 <= c <= t`, `s` is at most 1, and is 1 exactly when `c == t`. */
  lemma ScaledBelow(s: real, t: real, c: real)
    requires t > 0.0 && s * t == c && c <= t
    ensures s <= 1.0
    ensures s == 1.0 <==> c == t
  {
    assert (1.0 - s) * t == t - c;
  }

  /**
   * The story sentiment score of a script: `k` is 4 for NetTruyen and 5 for
   * TruyenQQ. `None` is a story the loop skips: one whose `comment_count` is 0,
   * or one with a comment not yet analysed (a missing label).
   */
  function StorySentimentScore(commentCount: int, stored: seq<StoredLabel>, k: real): (r: Option<real>)
    ensures r.None? <==> commentCount == 0 || exists i | 0 <= i < |stored| :: stored[i].Missing?
    ensures r.Some? ==> 0.0 <= r.value <= 10.0
    ensures r.Some? && stored == [] ==> r.value == 0.0
  {
    if commentCount == 0 || exists i | 0 <= i < |stored| :: stored[i].Missing? then None
    else
      var q := StoryRatios(MapLabels(stored));
      Some(SentimentRating(q.positive, q.negative, q.neutral, k))
  }

  /** The NetTruyen script, weighing negative comments 4 instead of 5, never scores a story lower than the TruyenQQ one. */
  lemma NetTruyenScoresNoLower(commentCount: int, stored: seq<StoredLabel>)
    ensures StorySentimentScore(commentCount, stored, 4.0).Some? <==> StorySentimentScore(commentCount, stored, 5.0).Some?
    ensures StorySentimentScore(commentCount, stored, 4.0).Some? ==>
      StorySentimentScore(commentCount, stored, 4.0).value >= StorySentimentScore(commentCount, stored, 5.0).value
  {
    var q := StoryRatios(MapLabels(stored));
    assert q.negative * 4.0 <= q.negative * 5.0;
  }

  /** A story whose comments all map to "positive" scores 10 in both scripts. */
  lemma AllPositiveScoresTen(commentCount: int, stored: seq<StoredLabel>, k: real)
    requires commentCount != 0 && stored != [] && k >= 0.0
    requires forall i | 0 <= i < |stored| :: MapLabel(stored[i]) == "positive"
    ensures StorySentimentScore(commentCount, stored, k) == Some(10.0)
  {
    var labels := MapLabels(stored);
    forall i | 0 <= i < |stored| ensures !stored[i].Missing? && labels[i] == "positive" {
      assert MapLabel(stored[i]) == "positive";
    }
    AllPositiveRatios(labels);
    assert SentimentRating(1.0, 0.0, 0.0, k) == 10.0;
  }

  lemma AllPositiveRatios(labels: seq<string>)
    requires labels != []
    requires forall i | 0 <= i < |labels| :: labels[i] == "positive"
    ensures StoryRatios(labels) == Ratios(1.0, 0.0, 0.0)
  {
    AllOneLabel(labels, "positive");
    LabelsPartition(labels);
    var t := |labels|;
    assert CountLabel(labels, "negative") == 0 && CountLabel(labels, "neutral") == 0;
    ScaledBelow(Ratio(t, t), t as real, t as real);
  }

  lemma {:induction false} AllOneLabel(labels: seq<string>, l: string)
    requires forall i | 0 <= i < |labels| :: labels[i] == l
    ensures CountLabel(labels, l) == |labels|
  {
    if labels != [] {
      AllOneLabel(labels[..|labels| - 1], l);
    }
  }

  /**
   * A label outside the map counts in the total but in no bucket: one positive
   * comment and one labelled "mixed" give ratios 0.5, 0 and 0, which sum to 0.5.
   */
  lemma UnmappedLabelDilutes()
    ensures StoryRatios(MapLabels([LabelText("Tích cực"), LabelText("mixed")])) == Ratios(0.5, 0.0, 0.0)
  {
    var m := Lower("mixed");
    assert forall i | 0 <= i < 5 :: m[i] == "mixed"[i];
    assert m == "mixed";
    var labels := MapLabels([LabelText("Tích cực"), LabelText("mixed")]);
    assert labels == ["positive", "mixed"];
    assert labels[..1] == ["positive"];
  }
}
