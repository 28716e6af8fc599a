# RatingComic core, modelled in Dafny

RatingComic scrapes Vietnamese comic sites (TruyenQQ, NetTruyen, Manhuavn,
Truyentranh3q), normalises the scraped records, analyses comment sentiment
and blends everything into a rating out of 10. Beneath the Selenium, SQLite,
Flask and transformer plumbing sits a layer of small, sequential, pure logic.
This project models that layer and proves properties of it. The layer is
duplicated, with variations, across many crawler, script and rater files.

Modules, each in its own file:

- `Base`, `Text`, `PyNum`, `Grouping` (`base.dfy`, `text.dfy`, `pynum.dfy`, `grouping.dfy`): shared vocabulary.
  - Python's `Optional`.
  - `strip`, `split`, `join`, `replace`, `upper`/`lower` and `re.search` for a digit run.
  - `int()` and `float()` of text, taken as exact rationals.
  - Dynamic dictionary values, and thousands grouping.
- `NumberParsing` (`numbers.dfy`): every `extract_number`, `parse_number` and `extract_chapter_number` variant, each as its own function.
- `RelativeTime` (`relative.dfy`): the three `parse_relative_time` variants. A moment is "now", a number of seconds before now, or what `strptime(text, format)` denotes. A relative offset that Python cannot represent (a `timedelta` over 999999999 days, or a moment before year 1) raises `OverflowError`, and the parsers' handlers answer "now"; the model does the same.
- `Comments` (`comments.dfy`): comment post-processing.
  - Defaults for blank fields, SQL quote doubling and truncation.
  - De-duplication.
  - The stop rules of the comment-page loops.
  - The listing filter.
  - The de-duplication of `add_comments`.
- `Sentiment` (`sentiment.dfy`): the keyword classifier with and without negation swaps, the label/confidence score mapping, the fallback rules of `analyze`, and the batch loop.
- `Ratings` (`ratings.dfy`): `ComicRatingCalculator`. This covers the rating-string normalisation, confidence, sentiment blend, final clamp, the four formulas and the story sentiment rating.
- `Raters` (`raters.dfy`): the three stand-alone raters of the analysis package.
- `ScriptRatings` (`scripts.dfy`): the comprehensive ratings and story sentiment scores of the two rating scripts.
- `Normalizer` (`normalizer.dfy`): `DataNormalizer.normalize_comic_data`.
- `Transform` (`transform.dfy`): the `transform_comic_data` tables and the Manhuavn detail crawl's record.
- `StoryDetails` (`details.dfy`): the custom-field conversion of `get_story_details`.
- `Factory` (`factory.dfy`): `CrawlerFactory.create_crawler` and the Truyentranh3q constructor's clamping.
- `DriverPool` (`driverpool.dfy`): the NetTruyen crawler's bounded pool of drivers.
- `Worker` (`worker.dfy`): the `retry` decorator, the resource check, `get_text_safe` and the control flow of `process_comic_worker`.
- `Progress` (`progress.dfy`): the TruyenQQ crawler's progress arithmetic.
- `WebHelpers` (`webhelpers.dfy`): `formatNumber`, `formatDate` and `toggleButtonLoading` of `static/js/main.js`.

Modelling conventions:

- Library calls become function parameters:
  - `strptime` acceptance;
  - `log10(x + 1) / log10(cap)`;
  - `json.loads` and `fromisoformat`;
  - `toLocaleDateString`;
  - the transformer's prediction.
- A Python exception caught by the source is an `Option`/`Result` error value, or the fallback the source returns.
- Python dictionaries are `map<string, Value>`. `Value` is an int, a float (an exact real), a string or `None`.

## Model

| member | source | states |
|---|---|---|
| NumberParsing.ExtractNumberKM | crawlers/truyentranh3q_crawler.py:246-286 | Empty text and "N/A" are 0, and so is every failing conversion. Its partner lemmas below pin the result on each input family. |
| NumberParsing.ExtractKMOfNat | crawlers/truyentranh3q_crawler.py:277-283 | Round trip: the decimal text of any count reads back as that count. |
| NumberParsing.ExtractKMOfCommaGrouped | crawlers/truyentranh3q_crawler.py:277-283 | A count written with ',' thousands separators reads back as the count, e.g. "1,234" is 1234. |
| NumberParsing.ExtractKMOfDotGrouped | crawlers/truyenqq_crawler.py:374-413 | A count of a million or more written with '.' separators (so with at least two dots) reads back as the count, e.g. "2.345.737" is 2345737. |
| NumberParsing.ExtractKMOneDotIsDecimal | crawlers/truyentranh3q_crawler.py:277-283 | With a single dot and no suffix, the dot is a decimal point and the fraction is truncated. |
| NumberParsing.ExtractKMOfSuffixed | crawlers/truyentranh3q_crawler.py:252-274 | A count followed by K or k is multiplied by 1000, and one followed by M or m by 1,000,000. |
| NumberParsing.KMKiloBranch | crawlers/truyentranh3q_crawler.py:257-274 | A 'K' anywhere, in either case, selects the kilo branch before any 'M' is considered. |
| NumberParsing.DecimalMantissa | crawlers/truyentranh3q_crawler.py:258-262 | A one-digit decimal mantissa such as "3.2" is scaled exactly: 3.2K is 3200. |
| NumberParsing.ExtractNumberValue | crawl_nettruyen.py:140-193 | Ints pass through, floats are truncated toward zero, `None` is 0, and text goes through the K/M reader. The same function is `extract_number` of rating_truyenqq.py. |
| NumberParsing.ParseNumberManhuavn | crawlers/manhuavn_crawler.py:284-310 | A missing value is 0. Its partner lemmas below pin the rest. |
| NumberParsing.ManhuavnNonNegative | crawlers/manhuavn_crawler.py:284-310 | The parsed number is never negative: signs are dropped with every other non-digit. |
| NumberParsing.ManhuavnOfNat | crawlers/manhuavn_crawler.py:284-310 | Round trip: the decimal text of a count parses to the count. |
| NumberParsing.ManhuavnOfSuffixed | crawlers/manhuavn_crawler.py:295-302 | A k/K suffix multiplies by 1000, and an m/M suffix by 1,000,000. |
| NumberParsing.ManhuavnKiloBeforeMega | crawlers/manhuavn_crawler.py:295-302 | With both letters present the 'k' branch wins. |
| NumberParsing.ManhuavnMalformed | crawlers/manhuavn_crawler.py:304-310 | Text that keeps two or more dots after cleaning fails `float` and gives 0. |
| NumberParsing.MaxDigitRun | crawlers/manhuavn_crawler.py:312-326 | Empty text and "N/A" are 0. |
| NumberParsing.MaxDigitRunIsMax | crawlers/manhuavn_crawler.py:312-326 | The result is the largest digit run: no run exceeds it, some run equals it, and text without digits gives 0. |
| NumberParsing.StripSeparators | crawlers/nettruyen_crawler.py:243-252 | Empty text and "N/A" are 0. |
| NumberParsing.StripSeparatorsOfGrouped | crawlers/nettruyen_crawler.py:243-252 | Unlike the Manhuavn variant, every separator is dropped: a count grouped with '.' or ',' reads back as the count. |
| NumberParsing.NormalizerExtract | utils/data_normalizer.py:92-113 | Falsy values are 0, ints pass through and floats are truncated. |
| NumberParsing.NormalizerOfGrouped | utils/data_normalizer.py:92-113 | A grouped count reads back as the count: the digits are kept and the separators dropped. |
| NumberParsing.NormalizerOfSuffixed | utils/data_normalizer.py:92-113 | K and M suffixes scale by 1000 and 1,000,000. |
| NumberParsing.NormalizerOfText | utils/data_normalizer.py:103-111 | Non-empty text is stripped before the suffix-or-digits reading. |
| NumberParsing.ManhuavnRaterExtract | analysis/manhuavn_rating.py:12-34 | Falsy values and "N/A" are 0, ints pass through and floats are truncated. |
| NumberParsing.RaterAgreesWithNormalizer | analysis/manhuavn_rating.py:12-34 | The rater's extractor and the normaliser's agree on every value. |
| NumberParsing.ChapterNumber | crawlers/truyentranh3q_crawler.py:224-244 | A missing text is chapter 0. |
| NumberParsing.ChapterPrecedence | crawlers/nettruyen_crawler.py:221-241 | The number after "Chapter" wins, then the number after "Chương", then the first digit run. |
| NumberParsing.ChapterDigitFree | crawlers/truyenqq_crawler.py:50-70 | Text without a digit is chapter 0. |
| NumberParsing.ChapterOfChapterN | crawl_nettruyen.py:281-302 | "Chapter n" is chapter n for every n. |
| NumberParsing.ChapterOfChuongN | crawl_truyenqqto.py:48-68 | "Chương n" is chapter n for every n. |
| NumberParsing.ChapterOfBare | crawlers/truyentranh3q_crawler.py:238-241 | A bare numeral is its own chapter number. |
| RelativeTime.UnitSeconds | crawlers/truyentranh3q_crawler.py:310-326 | The offsets of n units: 60 or 3600 seconds, a day, a week, `int(n * 30.44)` days for a month and 365 days for a year. |
| RelativeTime.RelativeTruyentranh3q | crawlers/truyentranh3q_crawler.py:288-348 | A non-string or blank text is now. |
| RelativeTime.NoDigitsIsNow | crawlers/truyentranh3q_crawler.py:301-303 | Text without a digit is now. For NetTruyen this holds unless the text is an exact timestamp. |
| RelativeTime.PhraseOfUnit | crawlers/truyentranh3q_crawler.py:301-326 | "n <unit> trước" is exactly n of that unit ago, for all six units, when that offset is representable from the current time; otherwise the overflow handler answers now. |
| RelativeTime.UnitPriority | crawlers/truyentranh3q_crawler.py:310-326 | When several unit phrases occur, the first in the order minute, hour, day, week, month, year decides. An offset that cannot be represented gives now. |
| RelativeTime.DatesAfterUnits | crawlers/truyentranh3q_crawler.py:328-344 | Without a unit phrase, the first accepting date format in the source's order gives the moment, and otherwise it is now. |
| RelativeTime.YearsPastLimitAreNow | crawlers/truyentranh3q_crawler.py:325-348 | So many years that the `timedelta` overflows reads as now, whatever the current time. |
| RelativeTime.RelativeManhuavn | crawlers/manhuavn_crawler.py:374-456 | A missing or blank text is now. |
| RelativeTime.ReformatOfClock | crawlers/manhuavn_crawler.py:383-397 | "HH:MM - d/m/yyyy" is rewritten as "yyyy-mm-dd HH:MM:00", with day and month zero-filled. |
| RelativeTime.ManhuavnReformatted | crawlers/manhuavn_crawler.py:383-401 | A reformatted text that parses as a timestamp is that timestamp. |
| RelativeTime.ZFillDigits | crawlers/manhuavn_crawler.py:392-393 | Zero-filling to width 2 keeps a numeral's value and widens it only when it is shorter. |
| RelativeTime.NetTruyenExactFirst | crawlers/nettruyen_crawler.py:700-734 | A text that parses as "%Y-%m-%d %H:%M:%S" is that timestamp, before any unit is considered. |
| RelativeTime.NetTruyenUnits | crawlers/nettruyen_crawler.py:700-734 | Otherwise, with digits present, the first unit word in source order decides, or gives now when the offset cannot be represented. With no unit word the result is now. |
| Comments.OrDefault | crawlers/truyentranh3q_crawler.py:920-926 | A blank field takes the default, any other field is kept, and a non-blank default makes the result non-blank. |
| Comments.UnescapeEscape | crawlers/truyentranh3q_crawler.py:940-941 | Quote doubling is invertible: undoubling `"` and then `'` restores the text. |
| Comments.Truncate | crawlers/truyentranh3q_crawler.py:944-948 | Text over the limit keeps its first `limit - 3` characters followed by "...". Shorter text is unchanged, and the result never exceeds the limit. |
| Comments.CleanField | crawlers/manhuavn_crawler.py:849-864 | Default, escape and truncate: the result never exceeds the limit. |
| Comments.SanitizeBounds | crawlers/manhuavn_crawler.py:849-864 | Sanitised names are 1–100 characters, and contents 1–2000. |
| Comments.SanitizeBlank | crawlers/truyentranh3q_crawler.py:920-948 | A comment blank in both fields becomes the anonymous user with content "N/A". |
| Comments.Appended | crawlers/truyentranh3q_crawler.py:959-969 | Appending without duplicates keeps the collected prefix and stays duplicate-free. Everything in the batch ends up present, and nothing else is added. |
| Comments.AppendUnique | crawlers/truyentranh3q_crawler.py:959-969 | The loop computes `Appended` and counts exactly the comments it added. |
| Comments.Recent | crawlers/truyentranh3q_crawler.py:933-937 | A page never yields more comments than it shows. |
| Comments.RecentExactly | crawlers/truyentranh3q_crawler.py:933-937 | Every comment that is not too old is kept after cleaning, and every kept comment is a cleaned comment that was not too old. |
| Comments.Truyentranh3qPageCollects | crawlers/truyentranh3q_crawler.py:920-969 | One page extends the collection without duplicates. Every recent cleaned comment is in it, and every new entry is one of them. |
| Comments.TruyenQQClean | crawlers/truyenqq_crawler.py:335-357 | Blank fields become "N/A", so neither field is empty. |
| Comments.TruyenQQPage | crawlers/truyenqq_crawler.py:335-357 | Dedupe by name and content: prefix kept, no duplicates, every page comment present, and nothing foreign added. |
| Comments.StopScan | crawlers/nettruyen_crawler.py:622-635 | The scan keeps a prefix of the page. Each kept comment is recent, and its content is "N/A" or is new to both the earlier pages and the scan. |
| Comments.StopScanStopsAtCause | crawlers/nettruyen_crawler.py:622-635 | The scan stops early only at a comment that is too old or repeats a content already seen. |
| Comments.NotAvailableNeverStops | crawlers/nettruyen_crawler.py:622-635 | Recent "N/A" comments never stop the scan. |
| Comments.ScriptPage | crawl_nettruyen.py:377-406 | The page result is a prefix of the page. It is cut exactly at the first repeated content (other than "N/A"), and the seen set only grows. |
| Comments.ShortPageIsLast | crawl_nettruyen.py:412-414 | A non-empty page of fewer than 10 comments ends the crawl. |
| Comments.RepeatEndsCrawl | crawl_nettruyen.py:393-410 | A repeated content ends the crawl within that page. |
| Comments.ScriptCrawlBound | crawl_nettruyen.py:365-414 | The crawl returns no more comments than the pages hold. |
| Comments.ScriptQQto | crawl_truyenqqto.py:284-307 | Every comment is kept in order, with blank fields defaulted to "N/A". |
| Comments.FilterListings | crawlers/truyentranh3q_crawler.py:593-595 | Exactly the listings with a title and an http link survive (the same filter is crawlers/manhuavn_crawler.py:701-703). |
| Comments.FilterListingsIdempotent | crawlers/manhuavn_crawler.py:701-703 | Filtering twice equals filtering once. |
| Comments.AsStored | database/operations.py:206-219 | A missing username is stored as the anonymous user, and the content is kept. |
| Comments.AddComments | database/operations.py:183-230 | The insert count equals the rows inserted, and no empty or already stored content is inserted. Inserted contents are pairwise distinct, and every non-empty new content is inserted. Each inserted row is stored from the first batch entry with its content (`FromFirstEntry`), so a later duplicate's user name is never the one kept. A database error commits nothing. |
| Sentiment.ClassifyMonotone | analyzers/sentiment.py:106-111 | A higher score never gets a lower label (0.4 / 0.6 thresholds). |
| Sentiment.Hits | analyzers/sentiment.py:82-83 | The hit count is 0 exactly when no keyword occurs, and the list length exactly when all occur. |
| Sentiment.NegatedHits | analyzers/sentiment.py:86-96 | No swap unless some keyword occurs right after the negation word. |
| Sentiment.Swaps | analyzers/sentiment.py:86-96 | No negation word in the text means no swaps. |
| Sentiment.NegationPreservesTotal | analyzers/sentiment.py:86-96 | Swaps move counts between positive and negative but keep their sum. |
| Sentiment.NoNegationPlainCounts | analyzers/sentiment.py:82-96 | Without negation words the counts are the plain hit counts. |
| Sentiment.RatioScore | analyzers/sentiment.py:99-103 | With non-negative counts the score lies in [0, 1], and with no keyword hits it is 0.5. |
| Sentiment.KeywordAnalysis | analyzers/sentiment.py:74-117 | Text under 3 characters is neutral 0.5 with no method tag. Otherwise the label is the classification of the score and the method is "keyword". |
| Sentiment.NoKeywordIsNeutral | analyzers/sentiment.py:99-111 | Text without keywords is neutral at 0.5. |
| Sentiment.SampleFromAnalyzer | analyzers/sentiment.py:47-72 | Every word of the three-word sample dictionary belongs to the matching list of the analyser's dictionary. |
| Sentiment.NegationLeavesUnitInterval | analyzers/sentiment.py:86-103 | As written, "ko hay, k hay" scores -1: negation swaps drive the positive count below zero. |
| Sentiment.CorrectedKeywordAnalysis | analyzers/sentiment.py:74-117 | With the counts floored at zero, the score always lies in [0, 1]. Short text and classification behave as in the original. |
| Sentiment.CorrectedAgrees | analyzers/sentiment.py:86-103 | The corrected classifier equals the original whenever the original's counts stay non-negative. |
| Sentiment.ModelScore | analyzers/sentiment.py:148-153 | Positive predictions score in [0.5, 1], negative ones in [0, 0.5], and neutral ones exactly 0.5. |
| Sentiment.ModelScoreInverse | analyzers/sentiment.py:148-153 | The confidence is recoverable from the score: the distance from 0.5, doubled. |
| Sentiment.ModelScoreClassified | analyzers/sentiment.py:148-153 | A positive or negative prediction keeps its label after reclassification exactly when its confidence exceeds 0.2. |
| Sentiment.Analyze | analyzers/sentiment.py:119-164 | Short text gets the default result. Without a model, or when the model raises, the result is the keyword analysis. The result is tagged "model" exactly when a prediction was made. |
| Sentiment.AnalyzeModelInUnit | analyzers/sentiment.py:148-153 | A model prediction always scores within [0, 1]. |
| Sentiment.RaterAnalyze | rating_nettruyen.py:47-87 | The script's analyser scores within [0, 1] and falls back to its keyword classifier when the model raises. |
| Sentiment.RaterKeywordAnalysis | rating_nettruyen.py:103-143 | Without negation handling the score stays in [0, 1] and the label is its classification. |
| Sentiment.RaterNoKeywordIsNeutral | rating_nettruyen.py:129-133 | No keyword means neutral 0.5. |
| Sentiment.RaterOnlyPositive | rating_truyenqq.py:125-141 | Only positive keywords means positive 1.0. |
| Sentiment.RaterIsAnalyzerWithoutNegation | rating_nettruyen.py:103-143 | On text without negation words the script's classifier and the analyser's score alike. |
| Sentiment.Chunks | analyzers/sentiment.py:166-175 | Chunked analysis returns one result per text, in order. |
| Sentiment.Batch | rating_nettruyen.py:89-101 | A positive batch size analyses every text in order. A zero size raises, and a negative size yields nothing. |
| Sentiment.BatchSizeIrrelevant | analyzers/sentiment.py:166-175 | Every positive batch size gives the same results. |
| Ratings.Term | analyzers/rating.py:49-52 | A normalised term is at most 1, non-negative for non-negative counts, and 0 for a zero count. |
| Ratings.GuardedTerm | rating_nettruyen.py:259-268 | A non-positive count contributes 0, and a positive one its normalised term. |
| Ratings.Rescale | analyzers/rating.py:100-115 | A site rating in [0, 100] lands in [0, 10], and one in (5, 10] is kept. |
| Ratings.RescaleScales | analyzers/rating.py:100-115 | Ratings at most 5 are doubled, and ratings above 10 are divided by 10. |
| Ratings.Fraction | analyzers/rating.py:100-108 | "a/b" yields a value exactly when both parts convert and b is not zero. |
| Ratings.SlashRatingOfNats | analyzers/rating.py:100-108 | "a/b" of counts is a / b · 10. |
| Ratings.NetTruyenRatingValue | analyzers/rating.py:100-115 | A falsy rating is 5.0, and anything without a slash converts. |
| Ratings.ManhuavnRatingValue | analyzers/rating.py:239-259 | "N/A" is 5.0, and anything without a slash converts. |
| Ratings.RatingValueInRange | analyzers/rating.py:100-115 | A plain rating in [0, 100] ends in [0, 10] for both sites. |
| Ratings.Confidence | analyzers/rating.py:137 | Confidence lies in (0, 1]. No ratings gives 0.1, at least `scale` ratings gives 1, and it is proportional in between. |
| Ratings.ConfidenceMonotone | analyzers/rating.py:137 | More ratings never lower the confidence. |
| Ratings.FirstRatingCanLowerConfidence | analyzers/rating.py:137 | The first rating drops confidence from 0.1 to 1/scale. |
| Ratings.AdjustedWeight | analyzers/rating.py:67-76 | The comment-adjusted weight never exceeds the weight, and is the full weight from 50 comments on. |
| Ratings.BlendBetween | analyzers/rating.py:67-76 | With a weight in [0, 1] the blend lies between the base and the sentiment rating. |
| Ratings.Clamp10 | analyzers/rating.py:76 | The clamp lands in [0, 10] and keeps values already there. |
| Ratings.FinalRating | analyzers/rating.py:67-76 | The final rating is in [0, 10], and without comments it is the clamped base. |
| Ratings.FinalIsBlendOnScale | analyzers/rating.py:67-76 | On-scale inputs need no clamp. |
| Ratings.FullWeightFromFifty | analyzers/rating.py:67-76 | From 50 comments on, the blend uses the full weight. |
| Ratings.FormulaFor | analyzers/rating.py:19-26 | Each known site gets its own formula and any other source gets the generic one. |
| Ratings.Coerce | analyzers/rating.py:38-41 | Falsy values are 0, and other values are `max(0, int(x))`, failing exactly when `int` raises. |
| Ratings.GenericRating | analyzers/rating.py:29-89 | A failed coercion fails the rating. A success has its base in [0, 10] and a final rating on the scale, equal to the clamped base without comments. |
| Ratings.NetTruyenFormulaRating | analyzers/rating.py:92-167 | Failures propagate. The final rating is on the scale, and with an on-scale rating so is the base. |
| Ratings.TruyenQQFormulaRating | analyzers/rating.py:170-228 | Failures propagate. The final rating is on the scale and so is the base. |
| Ratings.ManhuavnFormulaRating | analyzers/rating.py:231-311 | Failures propagate. The final rating is on the scale, and with an on-scale rating so is the base. |
| Ratings.ComprehensiveRating | analyzers/rating.py:19-26 | "nettruyen", "truyenqq" and "manhuavn" each get their own formula's rating, every other source gets the generic one, and the result is always on the scale. |
| Ratings.NoCommentsNoSentiment | analyzers/rating.py:207 | Without a comment count the final rating is the clamped base for every source. |
| Ratings.Ratio | rating_truyenqq.py:446-448 | A ratio is count/total, or 0 for an empty total, and lies in [0, 1]. |
| Ratings.SentimentRating | analyzers/rating.py:314-329 | The story score `2(8p − k·n + 6u)` is clamped into [0, 10] and kept when already there. |
| Ratings.SentimentMonotone | analyzers/rating.py:314-329 | More positive or fewer negative comments never lower the score. |
| Ratings.SentimentExtremes | analyzers/rating.py:314-329 | All negative scores 0, while all positive or all neutral scores 10. |
| Raters.ManhuavnRaterRating | analysis/manhuavn_rating.py:57-74 | "N/A" is 5.0, a non-string raises, and a string without a slash converts. |
| Raters.FollowerScale | analysis/manhuavn_rating.py:100 | The confidence scale is follows/100, never below 0.01. |
| Raters.ManhuavnCalculate | analysis/manhuavn_rating.py:36-115 | The result is always in [0, 10]. Any raised error gives 5.0, and a missing rating is read as 5.0. Otherwise it is the base formula of the parsed rating. |
| Raters.ManhuavnZeroDenominator | analysis/manhuavn_rating.py:57-74 | A rating "a/0" raises and gives the fallback 5.0. |
| Raters.ManhuavnFirstRatingLowers | analysis/manhuavn_rating.py:79-107 | For a comic with over 1000 followers, its first rating lowers the base. |
| Raters.NetTruyenRaterCounts | analysis/nettruyen_rating.py:18-23 | The counts fail exactly when one of the four conversions raises. |
| Raters.NetTruyenCalculate | analysis/nettruyen_rating.py:8-80 | The result is always in [0, 10], and any failure gives 5.0. Otherwise it is the base formula of the rescaled rating. |
| Raters.NetTruyenMissingRatingIsZero | analysis/nettruyen_rating.py:26-37 | A missing rating reads as "0", which is 0.0 and not the 5.0 of an empty string. |
| Raters.Truyentranh3qCounts | analysis/truyentranh3q_rating.py:28-38 | When every count converts they are used, and ratings and comments weigh nothing. |
| Raters.Truyentranh3qAllOrNothing | analysis/truyentranh3q_rating.py:28-38 | If any count fails to convert, all four are 0 and the rating is 0. |
| Raters.Truyentranh3qCalculate | analysis/truyentranh3q_rating.py:10-76 | The rating is in [0, 10] and stored as `base_rating` in the comic, with every other entry unchanged. |
| ScriptRatings.NetTruyenScriptCounts | rating_nettruyen.py:227-287 | The counts fail exactly when one of the five conversions raises. |
| ScriptRatings.Boosted | rating_nettruyen.py:286-298 | The result is always in [0, 10]. Without comments the base is boosted by 10% and clamped to 10. From 50 comments on, the full weight blends base and sentiment before the boost. With a weight in [0, 1], the result lies between the clamped boosts of the smaller and the larger of base and sentiment. |
| ScriptRatings.BoostSaturates | rating_nettruyen.py:298 | Every base from 10/1.1 up gives exactly 10. |
| ScriptRatings.NetTruyenScriptRating | rating_nettruyen.py:222-324 | Any failure gives the fixed 5.0 result, including a `sentiment_rating` that is not a number when there are comments. The final rating is on the scale. Without comments it is the clamped boosted base. With comments it is `min(10, max(0, blend * 1.1))` of the comment-weighted blend of base and sentiment. |
| ScriptRatings.TruyenQQScriptRating | rating_truyenqq.py:272-354 | Failures give 5.0: an unreadable comment count, or, with comments, a sentiment rating that is not a number. The final rating is on the scale. Without comments it is the clamped base, otherwise the clamped mix with the sentiment rating. |
| ScriptRatings.TruyenQQScriptBetween | rating_truyenqq.py:319-326 | With comments, the final rating lies between the base and the sentiment rating. |
| ScriptRatings.MapLabel | rating_nettruyen.py:403-407 | A stored label maps to one of "positive", "negative" and "neutral" exactly when it is one of the three Vietnamese names, is not text, or lower-cases to one of the English names. Other text is kept lower-cased. |
| ScriptRatings.CountLabel | rating_nettruyen.py:426-429 | A label's count is bounded by the number of comments, and is 0 exactly when no comment carries it. |
| ScriptRatings.LabelsPartition | rating_nettruyen.py:426-430 | The positive, negative and neutral counts plus the count of labels outside the map add up to `total`, the number of comments. |
| ScriptRatings.BucketsCoverIff | rating_nettruyen.py:426-430 | The three bucket counts never exceed `total`, and equal it exactly when every mapped label is one of the three names. |
| ScriptRatings.StoryRatios | rating_nettruyen.py:426-434 | The ratios lie in [0, 1] and sum to at most 1. With comments, they sum to exactly 1 when every label maps to one of the three names. Without comments they are all 0. |
| ScriptRatings.UnmappedLabelDilutes | rating_nettruyen.py:403-434 | A "mixed" label counts in `total` but in no bucket: one positive and one "mixed" comment give ratios 0.5, 0 and 0. |
| ScriptRatings.StorySentimentScore | rating_nettruyen.py:380-441 | A story is skipped exactly when its `comment_count` is 0 or one of its comments has no label yet. Otherwise its score lies in [0, 10], and 0 when no comments are stored. |
| ScriptRatings.NetTruyenScoresNoLower | rating_nettruyen.py:440-441 | The NetTruyen weight of 4 for negatives never scores below the TruyenQQ weight of 5, and both scripts skip the same stories. |
| ScriptRatings.AllPositiveScoresTen | rating_nettruyen.py:440-441 | A story whose comments all map to "positive" scores 10. |
| Normalizer.SetDefaults | utils/data_normalizer.py:30-38 | Present fields are kept and missing ones take the default. Nothing else is added. |
| Normalizer.ToNumber | utils/data_normalizer.py:74-79 | Only the named field changes, and only a text value, which becomes an int. |
| Normalizer.RatingNumerator | utils/data_normalizer.py:64-66 | The result never contains '/', and text without one is kept. |
| Normalizer.NormalizeBase | utils/data_normalizer.py:30-48 | Base defaults are filled in. Chapters and views end up non-text: chapters are digits only, views go through the extractor. Every other field is kept. |
| Normalizer.Normalize | utils/data_normalizer.py:12-89 | The keys are the comic's plus the base and site defaults. |
| Normalizer.NormalizeNumeric | utils/data_normalizer.py:41-79 | Every numeric field of the site is present and not text after normalising. |
| Normalizer.NormalizeRatingClean | utils/data_normalizer.py:63-66 | A normalised NetTruyen rating text has no '/'. |
| Normalizer.NormalizeKeepsFields | utils/data_normalizer.py:12-89 | Fields the site does not convert, and non-text values, are unchanged. |
| Normalizer.MissingBaseFieldTakesDefault | utils/data_normalizer.py:30-38 | A missing base field gets its default. |
| Normalizer.MissingSourceFieldTakesDefault | utils/data_normalizer.py:51-83 | A missing site field gets its site default. |
| Normalizer.NetTruyenRatingNumerator | utils/data_normalizer.py:64-66 | "a/b" keeps the stripped "a", and text without a slash is unchanged. |
| Normalizer.NormalizeIdempotent | utils/data_normalizer.py:12-89 | Normalising twice equals normalising once. |
| Transform.NetTruyenTransform | crawlers/nettruyen_crawler.py:525-539 | Exactly the table's database keys plus the source: each is copied from its scraped heading or takes its default. |
| Transform.ManhuavnTransform | crawlers/manhuavn_crawler.py:918-932 | The record exists exactly when the chapter label is text. It then has the table's keys, the source, and each field's conversion. |
| Transform.ManhuavnTransformCounts | crawlers/manhuavn_crawler.py:918-932 | A numeral chapter label is stored as its number and other text as 0. Follow and rating counts are the largest digit runs. |
| Transform.ChapterOfText | crawlers/manhuavn_crawler.py:224-227 | Chapter text without digits, or "N/A", is chapter 0. |
| Transform.ManhuavnDetails | crawlers/manhuavn_crawler.py:151-269 | A record is returned exactly when the link starts with "http" and the page loaded. It has the transform's keys and the source "Manhuavn". |
| Transform.DetailsViewsParsedOnce | crawlers/manhuavn_crawler.py:250-262 | The view count parsed again when stored equals the scraped text's reading. |
| Transform.DetailsChapterCount | crawlers/manhuavn_crawler.py:224-227 | The stored chapter count is the first digit run of the chapter text. |
| Transform.DetailsAgreeWithTransform | crawlers/manhuavn_crawler.py:250-262 | The detail crawl's record equals what the listing transform would store for the same story, the view count included. |
| Transform.TransformCopiesViews | crawlers/manhuavn_crawler.py:918-932 | The listing transform stores the scraped view count unchanged whenever the chapter label is text. |
| Transform.NormalizedNetTruyenRecord | utils/data_normalizer.py:56-66 | Normalising a transformed NetTruyen record adds only the missing fields and keeps its source. |
| StoryDetails.Convert | database/operations.py:528-546 | Each typed conversion is used exactly when the type matches and the parser accepts the text, and then holds the parsed value. Every failure, and every other type, keeps the stored text. |
| StoryDetails.CustomFieldsKeys | database/operations.py:527-548 | The dictionary has exactly one entry per field name. |
| StoryDetails.CustomFieldsLastWins | database/operations.py:527-548 | Each entry holds the conversion of the last field of that name. |
| StoryDetails.UnknownTypeIsText | database/operations.py:545-546 | A field of another type keeps its stored text. |
| StoryDetails.NumberFieldOfCount | database/operations.py:530-534 | A number field holding a count's decimal text is that count. |
| Factory.PagePlan | crawlers/crawler_factory.py:50-71 | Keyword arguments override the config, which overrides the defaults 1, 10 and 5. The end is clamped to at least the start, and the page count equals the range. |
| Factory.DefaultPlan | crawlers/crawler_factory.py:50-71 | Without arguments or config: pages 1–10, 10 pages, 5 workers. |
| Factory.PlanIsStable | crawlers/crawler_factory.py:55-71 | Passing a computed plan back in reproduces it. |
| Factory.SiteOf | crawlers/crawler_factory.py:88-109 | Each crawler type name selects exactly its site. |
| Factory.BaseUrl | crawlers/crawler_factory.py:77-84 | The keyword URL wins, then the configured site URL, then the built-in one. |
| Factory.CreateCrawler | crawlers/crawler_factory.py:29-109 | As written: no config is a `ValueError`, an unknown type is unsupported, and a built crawler received only keywords its constructor accepts. |
| Factory.CreateCrawlerRefusesThreeSites | crawlers/crawler_factory.py:77-107 | As written, only Truyentranh3q is ever built. The other three constructors reject `start_page`/`end_page`. |
| Factory.CreateCrawlerFixed | crawlers/crawler_factory.py:29-109 | With each constructor given only the keywords it accepts, the error cases are unchanged. |
| Factory.FixedBuildsEverySite | crawlers/crawler_factory.py:88-109 | The corrected factory builds every supported site with the computed plan and URL, and matches the original for Truyentranh3q. |
| Factory.Truyentranh3qInit | crawlers/truyentranh3q_crawler.py:423-444 | Workers are clamped to [1, the driver limit], and a non-empty base URL is used. A missing end page with a page count becomes `start + max − 1`. |
| Factory.FactoryTruyentranh3q | crawlers/crawler_factory.py:103-107 | The factory's plan passes through the constructor unchanged. |
| DriverPool.Empty | crawlers/nettruyen_crawler.py:22-31 | A fresh pool is valid and empty. |
| DriverPool.GetDriver | crawlers/nettruyen_crawler.py:33-49 | An idle driver is reused, oldest first. Otherwise one is created exactly when under the maximum and set-up succeeds, and the caller waits exactly when at the maximum. |
| DriverPool.ReturnDriver | crawlers/nettruyen_crawler.py:51-59 | A returned driver joins the back of the idle queue, and a missing one changes nothing. |
| DriverPool.CloseAll | crawlers/nettruyen_crawler.py:61-77 | Every created driver is quit and the pool is empty again. |
| DriverPool.GetKeepsValid | crawlers/nettruyen_crawler.py:33-49 | Requests keep the pool valid and never exceed the maximum. |
| DriverPool.ReturnKeepsValid | crawlers/nettruyen_crawler.py:51-59 | Returning an owned driver keeps the pool valid. |
| DriverPool.ReturnThenGet | crawlers/nettruyen_crawler.py:33-59 | Returning and then requesting gives the same driver back and the same pool. |
| DriverPool.FirstReturnedFirstReused | crawlers/nettruyen_crawler.py:33-59 | Idle drivers are reused in return order. |
| DriverPool.CloseThenCreate | crawlers/nettruyen_crawler.py:61-77 | After closing, the next request creates a driver. |
| DriverPool.RunKeepsValid | crawlers/nettruyen_crawler.py:22-77 | Any sequence of requests, own returns and closes keeps the pool valid and within its maximum. |
| DriverPool.CloseQuitsEveryCreated | crawlers/nettruyen_crawler.py:61-77 | Closing after any run quits exactly the drivers still held. |
| DriverPool.MaxPreserved | crawlers/nettruyen_crawler.py:22-77 | No operation changes the maximum. |
| Worker.Retry | utils/driver_utils.py:26-44 | Attempts stop at the first success or after `max_retries` failures, which re-raises the last error. Sleeps double from `delay`, and no retries gives no result. |
| Worker.RetryAgreesWithFirstSuccess | utils/driver_utils.py:26-44 | The retry returns the first successful attempt's value exactly when one exists within the limit, and raises otherwise. |
| Worker.TotalBackoff | utils/driver_utils.py:38-41 | The total wait over n sleeps is delay · (2ⁿ − 1). |
| Worker.DefaultRetryOfFailure | utils/driver_utils.py:26-44 | With the defaults, a function that always fails is tried three times with sleeps of 2 and 4 seconds. |
| Worker.ResourcesSufficient | utils/driver_utils.py:47-59 | The check refuses exactly when the measured memory use exceeds 80%, and a failed probe counts as sufficient. |
| Worker.TextOrDefault | utils/driver_utils.py:78-96 | The stripped text of the first match, or the default when nothing matches or the text is blank. |
| Worker.TextOrDefaultNeverBlank | utils/driver_utils.py:78-96 | With a non-blank default the result is never blank. |
| Worker.TextOrNA | crawlers/truyenqq_crawler.py:43-48 | The stripped text of the match, or "N/A" when none is found (likewise crawl_truyenqqto.py:41-46). |
| Worker.TextVersionsDiffer | crawlers/nettruyen_crawler.py:214-219 | The crawler version differs from the shared helper exactly on a blank match, where it returns "". |
| Worker.ProcessComic | utils/driver_utils.py:98-160 | Insufficient resources skip everything. A result is returned exactly when the database opens, the driver starts and the crawl succeeds. |
| Worker.ProcessComicReleases | utils/driver_utils.py:98-160 | The database is closed once for each time it is opened, and the driver quit once for each creation. Cleanup runs last. |
| Progress.ListingLimit | crawlers/truyenqq_crawler.py:82 | A missing or zero page limit means 999 pages. |
| Progress.ListingProgress | crawlers/truyenqq_crawler.py:149-151 | Listing progress is the page's share of the limit, capped at 100%. |
| Progress.ListingProgressMonotone | crawlers/truyenqq_crawler.py:149-151 | Listing progress never decreases. |
| Progress.DetailProgress | crawlers/truyenqq_crawler.py:184 | Detail progress runs from 50% towards 100%. |
| Progress.DetailProgressIncreases | crawlers/truyenqq_crawler.py:184 | Each detail step raises progress. |
| WebHelpers.CommaInDigits | static/js/main.js:8 | The separator pattern matches exactly at the interior positions with a multiple of 3 digits to their right. |
| WebHelpers.InsertSeparatorsGroups | static/js/main.js:8 | On digits the regex replacement equals grouping by threes from the right. |
| WebHelpers.InsertSeparatorsNegative | static/js/main.js:8 | A leading minus gets no comma after it. |
| WebHelpers.FormatNumberGroups | static/js/main.js:7-9 | `formatNumber` of an integer is its grouped decimal text, with the sign in front. |
| WebHelpers.FormatNumberRemoveCommas | static/js/main.js:7-9 | Deleting the commas gives back `n.toString()`. |
| WebHelpers.FormatNumberShape | static/js/main.js:7-9 | The first group has 1–3 digits and every later group exactly 3. There is no leading or trailing comma. |
| WebHelpers.FormatNumberSmall | static/js/main.js:7-9 | Numbers up to 999 are unchanged. |
| WebHelpers.FormatDate | static/js/main.js:12-22 | A missing or empty value gives "", and any other value is the locale rendering. |
| WebHelpers.ToggleButtonLoading | static/js/main.js:25-33 | Loading disables the button and shows the spinner. Leaving re-enables it with the given text, and nothing else changes. |
| WebHelpers.ToggleRestores | static/js/main.js:25-33 | Toggling on and then off with the original text restores the button exactly. |

## Left out

- Selenium scraping (navigation, selectors, waits, scrolling): scraped text and element lookups are inputs.
- Concurrency: multiprocessing and thread pools, semaphores, shared counters, the pool's lock, and the blocking `queue.get`. A request that would block is the outcome `Waits`.
- Signal handlers, process clean-up, and the psutil probe, which is an input percentage.
- SQLite, SQLAlchemy and pandas plumbing beyond the de-duplication of `add_comments`. The database error path is a flag. Sessions, commits and logging are not modelled.
- Flask, SocketIO and PyQt front-ends. In `static/js/main.js`: the DOM, `showToast`, tooltip initialisation and the image fallback.
- Transformer inference: the model's label and confidence for a text are an input `ModelRun`.
- The logarithmic normalisation `log10(x + 1) / log10(cap)` is an uninterpreted parameter. It is only assumed to vanish at 0 and to be non-negative.
- Python floating point. Values are exact reals, and `int(float(...))` truncates exactly. `float()` and `int()` accept only signed decimal numerals: no digit-group underscores (`int("1_000")`), and for `float()` no exponents, `inf` or `nan`.
- `datetime.now`, `strptime` and `timedelta` arithmetic: a moment is symbolic, and format acceptance is a parameter. The current time enters only as the parameter `sinceMin`, its distance from `datetime.min` in whole seconds, which decides whether an offset overflows.
- The limit on converting long digit strings with `int()` (4300 digits by default since Python 3.11) is not modelled: such a count is read in full. As an offset it is far past the `timedelta` limit, so the answer is now either way; without a unit phrase, though, the model goes on to the date formats where Python would answer now.
- `json.loads`, `datetime.fromisoformat` and `toLocaleDateString` are parameters.
- Character classes are ASCII. `\d`, `upper` and `lower` cover ASCII only, so non-ASCII digits and the Unicode case mapping are not modelled. Whitespace (`\s`, `strip`, `isspace`) is the ASCII set Python uses, the six usual characters and the separators `\x1c` to `\x1f`; non-ASCII spaces such as `\x85` and `\xa0` are not modelled. Vietnamese letters pass through unchanged.
- `formatNumber` is modelled on integers only. JavaScript's rendering of fractions and exponents is not modelled.
- Comment records carry only name and content. Timestamps and comic ids ride along in the source but never decide anything in the modelled logic.
- RelativeTime.RelativeTruyentranh3q: its own contract states only the missing and blank cases. The rest is stated by NoDigitsIsNow, PhraseOfUnit, UnitPriority and DatesAfterUnits, about the shared PhraseOrDate.
- RelativeTime.RelativeManhuavn: its own contract states only the missing and blank cases. The reformatting is stated by ReformatOfClock and ManhuavnReformatted.
- NumberParsing.ExtractKMOfDotGrouped: stated for counts of at least a million. Below that a dot-grouped count has a single dot, which the source reads as a decimal point (ExtractKMOneDotIsDecimal).
- Sentiment.NegationLeavesUnitInterval: exhibited with a dictionary of just "hay" and the negations "k" and "ko". All three words are in the analyser's own lists.
- ScriptRatings.StorySentimentScore: the `max_comments_per_story` sampling (`DataFrame.sample` with a fixed random state) is left out as randomness. The model scores the comments that the sample selected.

## Findings

| source | as written | input that shows it | evidently intended | confidence | as-written member | corrected member |
|---|---|---|---|---|---|---|
| crawlers/crawler_factory.py:77-107 | `common_kwargs` always passes `start_page` and `end_page`, and `config_manager` to TruyenQQ. The TruyenQQ, NetTruyen and Manhuavn constructors declare none of these, so Python raises `TypeError`. | `create_crawler("NetTruyen", db_manager, config)` with any configuration | Each crawler receives only the keyword arguments its constructor declares | not executed | Factory.CreateCrawlerRefusesThreeSites | Factory.FixedBuildsEverySite |
| analyzers/sentiment.py:86-103 | Every negation word that precedes a positive keyword moves one unit from the positive count to the negative count. Nothing stops the positive count going below zero, so the score `pos / (pos + neg)` leaves [0, 1]. | "ko hay, k hay" scores -1: one positive keyword, negated by both "ko" and "k" | Counts floored at zero, so the score stays in [0, 1] and classifies as negative | not executed | Sentiment.NegationLeavesUnitInterval | Sentiment.CorrectedKeywordAnalysis |
