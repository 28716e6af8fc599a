/**
 * Comment sentiment: the keyword classifier used when no model is available (with
 * negation swaps in the analyzer package, without them in the stand-alone raters), the
 * mapping from a model's label and confidence to a score, the per-text fallback rules
 * and the batch loop. The transformer model is an input: its prediction for a text is
 * passed in as a `ModelRun`.
 */
module Sentiment {
  import opened Base
  import opened Text

  datatype Label = Negative | Neutral | Positive

  /** The `method` entry of a result; the short-text path of the keyword classifier carries none. */
  datatype Method = KeywordMethod | DefaultMethod | ModelMethod

  datatype Analysis = Analysis(sentiment: Label, score: real, tag: Option<Method>)

  /** What the model produced for one text: a label with its softmax probability, or an exception. */
  datatype ModelRun = Prediction(predicted: Label, confidence: real) | Failure

  /** Positive, negative and negation keywords. */
  datatype Dictionary = Dictionary(positive: seq<string>, negative: seq<string>, negations: seq<string>)

  // Keyword sets of `SentimentAnalyzer` in the analyzer package, each word once.
  const AnalyzerPositive: seq<string> := [
    "hay", "th\U{00ED}ch", "tuy\U{1EC7}t", "\U{0111}\U{1EC9}nh", "vui", "xu\U{1EA5}t s\U{1EAF}c",
    "ch\U{1EA5}t l\U{01B0}\U{1EE3}ng", "c\U{1EA3}m \U{0111}\U{1ED9}ng", "y\U{00EA}u", "t\U{1ED1}t", "gi\U{1ECF}i", "th\U{00FA} v\U{1ECB}",
    "h\U{1EA5}p d\U{1EAB}n", "\U{0111}\U{1EB9}p", "tuy\U{1EC7}t v\U{1EDD}i", "c\U{01B0}\U{1EDD}i", "h\U{00E0}i", "\U{0111}\U{00E1}ng xem",
    "ng\U{1EA7}u", "\U{0111}\U{1EC9}nh cao", "ch\U{1EA5}t", "ngon", "qu\U{00E1} hay", "s\U{1ED1} 1",
    "\U{0111}\U{00E1}ng \U{0111}\U{1ECD}c", "\U{0111}\U{00E1}ng theo d\U{00F5}i", "th\U{00ED}ch th\U{00FA}", "m\U{00EA}", "y\U{00EA}u th\U{00ED}ch", "\U{1EE7}ng h\U{1ED9}",
    "h\U{00F3}ng", "mong", "c\U{01B0}ng", "d\U{1EC5} th\U{01B0}\U{01A1}ng", "cool", "hay qu\U{00E1}",
    "qu\U{00E1} \U{0111}\U{00E3}", "tuy\U{1EC7}t qu\U{00E1}", "\U{0111}\U{1EC9}nh qu\U{00E1}", "x\U{00FA}c \U{0111}\U{1ED9}ng", "\U{1EA5}n t\U{01B0}\U{1EE3}ng", "\U{0111}\U{00E1}ng gi\U{00E1}"
  ]
  const AnalyzerNegative: seq<string> := [
    "t\U{1EC7}", "d\U{1EDF}", "ch\U{00E1}n", "k\U{00E9}m", "nh\U{1EA1}t", "th\U{1EA5}t v\U{1ECD}ng",
    "bu\U{1ED3}n", "l\U{1ED7}i", "thi\U{1EBF}u", "kh\U{00F4}ng hay", "kh\U{00F4}ng th\U{00ED}ch", "nh\U{00E0}m",
    "v\U{1EDB} v\U{1EA9}n", "kh\U{00F4}ng \U{0111}\U{00E1}ng", "ph\U{00ED}", "h\U{1EE5}t h\U{1EAB}ng", "m\U{1EA5}t th\U{1EDD}i gian", "ngu",
    "v\U{00F4} l\U{00FD}", "d\U{1EDF} t\U{1EC7}", "b\U{1ECF} \U{0111}i", "l\U{00E3}ng ph\U{00ED}", "k\U{00E9}m ch\U{1EA5}t l\U{01B0}\U{1EE3}ng", "nh\U{1EA1}t nh\U{1EBD}o",
    "x\U{00E0}m", "ch\U{00E1}n ng\U{1EAF}t", "t\U{1EC7} h\U{1EA1}i", "th\U{1EA5}t h\U{1EE9}a", "ch\U{1EAD}m", "l\U{00EA} th\U{00EA}",
    "r\U{1ED1}i r\U{1EAF}m", "kh\U{00F4}ng hi\U{1EC3}u", "r\U{00E1}c r\U{01B0}\U{1EDF}i", "kh\U{00F4}ng n\U{00EA}n xem"
  ]
  const AnalyzerNegations: seq<string> := [
    "kh\U{00F4}ng", "ch\U{1EB3}ng", "\U{0111}\U{1EEB}ng", "ch\U{01B0}a", "kh\U{00F4}ng ph\U{1EA3}i", "ch\U{1EA3}",
    "kh\U{00F4}ng th\U{1EC3}", "kh\U{00F4}ng c\U{00F2}n", "kh\U{00F4}ng \U{0111}\U{01B0}\U{1EE3}c", "thi\U{1EBF}u", "kh\U{00F4}ng n\U{00EA}n", "\U{0111}\U{00E9}o",
    "\U{00E9}o", "\U{0111}", "k", "ko"
  ]

  // Keyword lists of the NetTruyen and TruyenQQ rating scripts, duplicates as listed.
  const RaterPositive: seq<string> := [
    "hay", "th\U{00ED}ch", "tuy\U{1EC7}t", "\U{0111}\U{1EC9}nh", "vui", "xu\U{1EA5}t s\U{1EAF}c",
    "ch\U{1EA5}t l\U{01B0}\U{1EE3}ng", "c\U{1EA3}m \U{0111}\U{1ED9}ng", "y\U{00EA}u", "t\U{1ED1}t", "gi\U{1ECF}i", "th\U{00FA} v\U{1ECB}",
    "h\U{1EA5}p d\U{1EAB}n", "\U{0111}\U{1EB9}p", "tuy\U{1EC7}t v\U{1EDD}i", "c\U{01B0}\U{1EDD}i", "h\U{00E0}i", "\U{0111}\U{00E1}ng xem",
    "ng\U{1EA7}u", "\U{0111}\U{1EC9}nh cao", "ch\U{1EA5}t", "\U{0111}\U{1EC9}nh", "ngon", "qu\U{00E1} hay",
    "s\U{1ED1} 1", "\U{0111}\U{00E1}ng \U{0111}\U{1ECD}c", "\U{0111}\U{00E1}ng theo d\U{00F5}i", "h\U{1EA5}p d\U{1EAB}n", "th\U{00ED}ch th\U{00FA}", "m\U{00EA}",
    "y\U{00EA}u th\U{00ED}ch", "\U{1EE7}ng h\U{1ED9}"
  ]
  const RaterNegative: seq<string> := [
    "t\U{1EC7}", "d\U{1EDF}", "ch\U{00E1}n", "k\U{00E9}m", "nh\U{1EA1}t", "th\U{1EA5}t v\U{1ECD}ng",
    "bu\U{1ED3}n", "l\U{1ED7}i", "thi\U{1EBF}u", "kh\U{00F4}ng hay", "kh\U{00F4}ng th\U{00ED}ch", "nh\U{00E0}m",
    "v\U{1EDB} v\U{1EA9}n", "kh\U{00F4}ng \U{0111}\U{00E1}ng", "ph\U{00ED}", "h\U{1EE5}t h\U{1EAB}ng", "m\U{1EA5}t th\U{1EDD}i gian", "ngu",
    "v\U{00F4} l\U{00FD}", "d\U{1EDF} t\U{1EC7}", "th\U{1EA5}t v\U{1ECD}ng", "b\U{1ECF} \U{0111}i", "l\U{00E3}ng ph\U{00ED}", "k\U{00E9}m ch\U{1EA5}t l\U{01B0}\U{1EE3}ng",
    "nh\U{1EA1}t nh\U{1EBD}o", "x\U{00E0}m", "ch\U{00E1}n ng\U{1EAF}t", "t\U{1EC7} h\U{1EA1}i"
  ]

  const AnalyzerDictionary: Dictionary := Dictionary(AnalyzerPositive, AnalyzerNegative, AnalyzerNegations)

  function Rank(l: Label): nat {
    match l
    case Negative => 0
    case Neutral => 1
    case Positive => 2
  }

  /** Score above 0.6 is positive, below 0.4 negative, anything between neutral. */
  function Classify(score: real): (l: Label) {
    if score > 0.6 then Positive else if score < 0.4 then Negative else Neutral
  }

  /** A higher score never gets a lower label. */
  lemma ClassifyMonotone(a: real, b: real)
    requires a <= b
    ensures Rank(Classify(a)) <= Rank(Classify(b))
  {
  }

  // ---------------------------------------------------------------------------
  // Keyword counting

  /** `sum(1 for word in words if word in text)`: the number of keywords that occur, however often. */
  function Hits(words: seq<string>, text: string): (r: nat)
    ensures r <= |words|
    ensures r == 0 <==> forall k | 0 <= k < |words| :: !Contains(text, words[k])
    ensures r == |words| <==> forall k | 0 <= k < |words| :: Contains(text, words[k])
    decreases |words|
  {
    if |words| == 0 then 0
    else
      var rest := Hits(words[1..], text);
      assert forall k | 1 <= k < |words| :: words[k] == words[1..][k - 1];
      (if Contains(text, words[0]) then 1 else 0) + rest
  }

  /** Only which keywords occur matters: texts with the same keywords score alike. */
  lemma {:induction false} HitsByPresence(words: seq<string>, s: string, t: string)
    requires forall k | 0 <= k < |words| :: Contains(s, words[k]) <==> Contains(t, words[k])
    ensures Hits(words, s) == Hits(words, t)
    decreases |words|
  {
    if |words| > 0 {
      assert forall k | 1 <= k < |words| :: words[1..][k - 1] == words[k];
      HitsByPresence(words[1..], s, t);
    }
  }

  /** `f"{neg} {w}" in text or f"{neg}{w}" in text` */
  predicate NegatedIn(text: string, neg: string, w: string) {
    Contains(text, neg + " " + w) || Contains(text, neg + w)
  }

  /** The number of `words` that occur negated by `neg`. */
  function NegatedHits(neg: string, words: seq<string>, text: string): (r: nat)
    ensures r <= |words|
    ensures r == 0 <==> forall k | 0 <= k < |words| :: !NegatedIn(text, neg, words[k])
    decreases |words|
  {
    if |words| == 0 then 0
    else
      var rest := NegatedHits(neg, words[1..], text);
      assert forall k | 1 <= k < |words| :: words[k] == words[1..][k - 1];
      (if NegatedIn(text, neg, words[0]) then 1 else 0) + rest
  }

  /** The number of units the negation loop moves away from the count of `words`. */
  function Swaps(negations: seq<string>, words: seq<string>, text: string): (r: nat)
    ensures r <= |negations| * |words|
    ensures (forall k | 0 <= k < |negations| :: !Contains(text, negations[k])) ==> r == 0
    decreases |negations|
  {
    if |negations| == 0 then 0
    else
      var rest := Swaps(negations[1..], words, text);
      assert forall k | 1 <= k < |negations| :: negations[k] == negations[1..][k - 1];
      assert |negations| * |words| == |words| + |negations[1..]| * |words|;
      (if Contains(text, negations[0]) then NegatedHits(negations[0], words, text) else 0) + rest
  }

  /** The positive and negative counts after the negation loop of `analyze_by_keywords`. */
  function KeywordCounts(d: Dictionary, text: string): (r: (int, int)) {
    var pos := Hits(d.positive, text);
    var neg := Hits(d.negative, text);
    var toNegative := Swaps(d.negations, d.positive, text);
    var toPositive := Swaps(d.negations, d.negative, text);
    (pos - toNegative + toPositive, neg + toNegative - toPositive)
  }

  /** Each swap moves one unit between the counts, so their sum is the number of keywords found. */
  lemma NegationPreservesTotal(d: Dictionary, text: string)
    ensures var (p, n) := KeywordCounts(d, text);
      p + n == Hits(d.positive, text) + Hits(d.negative, text)
  {
  }

  /** Without a negation word in the text the counts are the plain keyword hits. */
  lemma NoNegationPlainCounts(d: Dictionary, text: string)
    requires forall k | 0 <= k < |d.negations| :: !Contains(text, d.negations[k])
    ensures KeywordCounts(d, text) == (Hits(d.positive, text), Hits(d.negative, text))
  {
  }

  /** `pos / (pos + neg)` when the total is positive, else the neutral 0.5. */
  function RatioScore(pos: int, neg: int): (r: real)
    ensures pos >= 0 && neg >= 0 ==> 0.0 <= r <= 1.0
    ensures pos + neg <= 0 ==> r == 0.5
  {
    if pos + neg > 0 then (pos as real) / ((pos + neg) as real) else 0.5
  }

  /** `str(text).strip()` is shorter than 3 characters: too short to analyse. */
  predicate TooShort(text: string) {
    |Strip(text)| < 3
  }

  /** `analyze_by_keywords(text)` of the analyzer package, as written. */
  function KeywordAnalysis(d: Dictionary, text: string): (a: Analysis)
    ensures TooShort(text) ==> a == Analysis(Neutral, 0.5, None)
    ensures !TooShort(text) ==> a.tag == Some(KeywordMethod) && a.sentiment == Classify(a.score)
  {
    if TooShort(text) then Analysis(Neutral, 0.5, None)
    else
      var (p, n) := KeywordCounts(d, Lower(text));
      var s := RatioScore(p, n);
      Analysis(Classify(s), s, Some(KeywordMethod))
  }

  /** With no keyword in the text the result is neutral at 0.5. */
  lemma NoKeywordIsNeutral(d: Dictionary, text: string)
    requires !TooShort(text)
    requires forall k | 0 <= k < |d.positive| :: !Contains(Lower(text), d.positive[k])
    requires forall k | 0 <= k < |d.negative| :: !Contains(Lower(text), d.negative[k])
    ensures KeywordAnalysis(d, text) == Analysis(Neutral, 0.5, Some(KeywordMethod))
  {
    NegationPreservesTotal(d, Lower(text));
  }

  /** Three words of the analyzer's own sets, enough to exhibit the negation problem. */
  const NegationSample: Dictionary := Dictionary(["hay"], [], ["k", "ko"])

  /** Every word of the sample belongs to the matching set of the analyzer's dictionary. */
  lemma SampleFromAnalyzer()
    ensures forall w | w in NegationSample.positive :: w in AnalyzerDictionary.positive
    ensures forall w | w in NegationSample.negative :: w in AnalyzerDictionary.negative
    ensures forall w | w in NegationSample.negations :: w in AnalyzerDictionary.negations
  {
    assert AnalyzerDictionary.positive[0] == "hay";
    assert AnalyzerDictionary.negations[14] == "k" && AnalyzerDictionary.negations[15] == "ko";
  }

  /**
   * "ko hay, k hay" has one positive keyword and two negations of it, so the loop takes two
   * units from a positive count of one: the score is -1, outside [0, 1].
   */
  lemma NegationLeavesUnitInterval(t: string)
    requires t == "ko hay, k hay"
    ensures KeywordAnalysis(NegationSample, t).score == -1.0
  {
    SampleText(t);
    SampleCounts(t, NegationSample);
  }

  lemma SampleText(t: string)
    requires t == "ko hay, k hay"
    ensures !TooShort(t) && Lower(t) == t
  {
    assert !IsSpace(t[0]) && !IsSpace(t[|t| - 1]);
    StripTrimmed(t);
  }

  lemma SampleCounts(t: string, d: Dictionary)
    requires t == "ko hay, k hay" && d == NegationSample
    ensures KeywordCounts(d, t) == (-1, 2)
  {
    SampleContains(t);
    assert Hits(d.positive, t) == 1;
    assert Hits(d.negative, t) == 0;
    assert NegatedHits("k", d.positive, t) == 1;
    assert NegatedHits("ko", d.positive, t) == 1;
    assert d.negations[1..] == ["ko"] && d.negations[1..][1..] == [];
    assert Swaps(d.negations, d.positive, t) == 2;
    assert Swaps(d.negations, d.negative, t) == 0;
  }

  lemma SampleContains(t: string)
    requires t == "ko hay, k hay"
    ensures Contains(t, "hay") && Contains(t, "k") && Contains(t, "ko")
    ensures Contains(t, "ko" + " " + "hay") && Contains(t, "k" + " " + "hay")
  {
    SampleHasWords(t);
    SampleHasNegated(t);
  }

  lemma SampleHasWords(t: string)
    requires t == "ko hay, k hay"
    ensures Contains(t, "hay") && Contains(t, "k") && Contains(t, "ko")
  {
    SampleHasNegations(t);
    SampleHas(t, "ko ", "hay", ", k hay");
  }

  lemma SampleHasNegations(t: string)
    requires t == "ko hay, k hay"
    ensures Contains(t, "k") && Contains(t, "ko")
  {
    SampleHasFirstNegation(t);
    SampleHas(t, "", "ko", " hay, k hay");
  }

  lemma SampleHasFirstNegation(t: string)
    requires t == "ko hay, k hay"
    ensures Contains(t, "k")
  {
    SampleHas(t, "", "k", "o hay, k hay");
  }

  lemma SampleHasNegated(t: string)
    requires t == "ko hay, k hay"
    ensures Contains(t, "ko" + " " + "hay") && Contains(t, "k" + " " + "hay")
  {
    SampleHasFirstNegated(t);
    SampleHas(t, "ko hay, ", "k" + " " + "hay", "");
  }

  lemma SampleHasFirstNegated(t: string)
    requires t == "ko hay, k hay"
    ensures Contains(t, "ko" + " " + "hay")
  {
    SampleHas(t, "", "ko" + " " + "hay", ", k hay");
  }

  lemma SampleHas(t: string, a: string, w: string, b: string)
    requires t == a + w + b
    ensures Contains(t, w)
  {
    ContainsInside(a, w, b);
  }

  /** The counts with each clamped at zero, so that a negation never drives a count below nothing. */
  function ClampedCounts(d: Dictionary, text: string): (r: (nat, nat)) {
    var (p, n) := KeywordCounts(d, text);
    (if p < 0 then 0 else p, if n < 0 then 0 else n)
  }

  /** `analyze_by_keywords` with the counts clamped at zero: the score stays in [0, 1]. */
  function CorrectedKeywordAnalysis(d: Dictionary, text: string): (a: Analysis)
    ensures 0.0 <= a.score <= 1.0
    ensures TooShort(text) ==> a == Analysis(Neutral, 0.5, None)
    ensures !TooShort(text) ==> a.tag == Some(KeywordMethod) && a.sentiment == Classify(a.score)
  {
    if TooShort(text) then Analysis(Neutral, 0.5, None)
    else
      var (p, n) := ClampedCounts(d, Lower(text));
      var s := RatioScore(p, n);
      Analysis(Classify(s), s, Some(KeywordMethod))
  }

  /** Where no count goes negative the corrected classifier is the written one. */
  lemma CorrectedAgrees(d: Dictionary, text: string)
    requires var (p, n) := KeywordCounts(d, Lower(text)); p >= 0 && n >= 0
    ensures CorrectedKeywordAnalysis(d, text) == KeywordAnalysis(d, text)
  {
  }

  /** Negation of a negative word is the only way up for the positive count; without it a positive count is never increased. */
  lemma CorrectedNoNegation(d: Dictionary, text: string)
    requires !TooShort(text)
    requires forall k | 0 <= k < |d.negations| :: !Contains(Lower(text), d.negations[k])
    ensures CorrectedKeywordAnalysis(d, text).score == RatioScore(Hits(d.positive, Lower(text)), Hits(d.negative, Lower(text)))
  {
    NoNegationPlainCounts(d, Lower(text));
  }

  // ---------------------------------------------------------------------------
  // The stand-alone raters' classifier

  /** The keyword lists of the rating scripts; they use no negations. */
  const RaterDictionary: Dictionary := Dictionary(RaterPositive, RaterNegative, [])

  /**
   * `analyze_by_keywords(text)` of the NetTruyen and TruyenQQ rating scripts over the lists of
   * `d` (a word listed twice counts twice): no negation and no short-text rule.
   */
  function RaterKeywordAnalysis(d: Dictionary, text: string): (a: Analysis)
    ensures 0.0 <= a.score <= 1.0 && a.sentiment == Classify(a.score) && a.tag == None
  {
    var t := Lower(text);
    var s := RatioScore(Hits(d.positive, t), Hits(d.negative, t));
    Analysis(Classify(s), s, None)
  }

  /** A text with no listed keyword is neutral at 0.5. */
  lemma RaterNoKeywordIsNeutral(d: Dictionary, text: string)
    requires forall k | 0 <= k < |d.positive| :: !Contains(Lower(text), d.positive[k])
    requires forall k | 0 <= k < |d.negative| :: !Contains(Lower(text), d.negative[k])
    ensures RaterKeywordAnalysis(d, text) == Analysis(Neutral, 0.5, None)
  {
  }

  /** Only positive keywords found: the score is 1 and the label positive. */
  lemma RaterOnlyPositive(d: Dictionary, text: string)
    requires Hits(d.positive, Lower(text)) > 0
    requires forall k | 0 <= k < |d.negative| :: !Contains(Lower(text), d.negative[k])
    ensures RaterKeywordAnalysis(d, text) == Analysis(Positive, 1.0, None)
  {
    assert Hits(d.negative, Lower(text)) == 0;
    RatioAllPositive(Hits(d.positive, Lower(text)));
  }

  lemma RatioAllPositive(p: int)
    requires p > 0
    ensures RatioScore(p, 0) == 1.0
  {
    var x := p as real;
    assert x / x == 1.0;
  }

  /** The analyzer's negation loop is what the raters lack: with no negation word both count alike. */
  lemma RaterIsAnalyzerWithoutNegation(d: Dictionary, text: string)
    requires !TooShort(text)
    requires forall k | 0 <= k < |d.negations| :: !Contains(Lower(text), d.negations[k])
    ensures RaterKeywordAnalysis(d, text).score == KeywordAnalysis(d, text).score
  {
    NoNegationPlainCounts(d, Lower(text));
  }

  // ---------------------------------------------------------------------------
  // Model scores and the fallback rules

  /** Positive maps to 0.5 + c/2, negative to 0.5 - c/2, neutral to 0.5. */
  function ModelScore(l: Label, confidence: real): (r: real)
    requires 0.0 <= confidence <= 1.0
    ensures l == Positive ==> 0.5 <= r <= 1.0
    ensures l == Negative ==> 0.0 <= r <= 0.5
    ensures l == Neutral ==> r == 0.5
  {
    match l
    case Positive => 0.5 + confidence / 2.0
    case Negative => 0.5 - confidence / 2.0
    case Neutral => 0.5
  }

  /** The confidence can be read back from the score of a non-neutral label. */
  lemma ModelScoreInverse(l: Label, c: real)
    requires 0.0 <= c <= 1.0 && l != Neutral
    ensures var s := ModelScore(l, c); (if s >= 0.5 then 2.0 * (s - 0.5) else 2.0 * (0.5 - s)) == c
  {
  }

  /** Re-classifying a model score by the keyword thresholds keeps the label exactly when the confidence exceeds 0.2. */
  lemma ModelScoreClassified(l: Label, c: real)
    requires 0.0 <= c <= 1.0 && l != Neutral
    ensures Classify(ModelScore(l, c)) == l <==> c > 0.2
  {
  }

  predicate ValidRun(run: ModelRun) {
    run.Prediction? ==> 0.0 <= run.confidence <= 1.0
  }

  /** `analyze(text)` of the analyzer package; `hasModel` says whether model and tokenizer loaded. */
  function Analyze(d: Dictionary, text: string, hasModel: bool, run: ModelRun): (a: Analysis)
    requires ValidRun(run)
    ensures TooShort(text) ==> a == Analysis(Neutral, 0.5, Some(DefaultMethod))
    ensures !TooShort(text) && (!hasModel || run.Failure?) ==> a == KeywordAnalysis(d, text)
    ensures a.tag == Some(ModelMethod) <==> !TooShort(text) && hasModel && run.Prediction?
  {
    if TooShort(text) then Analysis(Neutral, 0.5, Some(DefaultMethod))
    else if !hasModel then KeywordAnalysis(d, text)
    else match run
      case Failure => KeywordAnalysis(d, text)
      case Prediction(l, c) => Analysis(l, ModelScore(l, c), Some(ModelMethod))
  }

  /** A model result always scores within [0, 1]. */
  lemma AnalyzeModelInUnit(d: Dictionary, text: string, run: ModelRun)
    requires ValidRun(run) && !TooShort(text) && run.Prediction?
    ensures 0.0 <= Analyze(d, text, true, run).score <= 1.0
  {
  }

  /** `analyze(text)` of the rating scripts: the model is always loaded, failures fall back to the keyword lists. */
  function RaterAnalyze(d: Dictionary, text: string, run: ModelRun): (a: Analysis)
    requires ValidRun(run)
    ensures 0.0 <= a.score <= 1.0
    ensures TooShort(text) ==> a == Analysis(Neutral, 0.5, None)
    ensures !TooShort(text) && run.Failure? ==> a == RaterKeywordAnalysis(d, text)
  {
    if TooShort(text) then Analysis(Neutral, 0.5, None)
    else match run
      case Failure => RaterKeywordAnalysis(d, text)
      case Prediction(l, c) => Analysis(l, ModelScore(l, c), None)
  }

  // ---------------------------------------------------------------------------
  // Batches

  /** The batch loop for a positive batch size: chunks of `size` texts, each analysed by `f`, results concatenated. */
  function Chunks(texts: seq<string>, size: nat, f: string -> Analysis): (r: seq<Analysis>)
    requires size > 0
    ensures |r| == |texts|
    ensures forall i | 0 <= i < |texts| :: r[i] == f(texts[i])
    decreases |texts|
  {
    if |texts| == 0 then []
    else
      var k := if size < |texts| then size else |texts|;
      var head := seq(k, i requires 0 <= i < k => f(texts[i]));
      var rest := Chunks(texts[k..], size, f);
      assert forall i | k <= i < |texts| :: texts[i] == texts[k..][i - k];
      head + rest
  }

  /**
   * `analyze_batch(texts, batch_size)`: `range` with step 0 raises `ValueError` (`None` here)
   * and a negative step gives no chunk at all.
   */
  function Batch(texts: seq<string>, size: int, f: string -> Analysis): (r: Option<seq<Analysis>>)
    ensures size == 0 <==> r.None?
    ensures size > 0 ==> r.Some? && |r.value| == |texts| && forall i | 0 <= i < |texts| :: r.value[i] == f(texts[i])
    ensures size < 0 ==> r == Some([])
  {
    if size == 0 then None
    else if size < 0 then Some([])
    else Some(Chunks(texts, size, f))
  }

  /** The batch size does not change the results: any two positive sizes agree. */
  lemma BatchSizeIrrelevant(texts: seq<string>, a: int, b: int, f: string -> Analysis)
    requires a > 0 && b > 0
    ensures Batch(texts, a, f) == Batch(texts, b, f)
  {
    var x := Batch(texts, a, f).value;
    var y := Batch(texts, b, f).value;
    assert x == y;
  }
}
