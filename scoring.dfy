/** The scoring aggregator: scores seven metrics against the rubric, sums
    them into category totals and a final score, and picks one of four
    overall-feedback sentences by threshold. */
module Scoring {
  import opened Text
  import opened Rubric
  import opened Matcher
  import opened Metrics

  /** The `Value` a metric reports. Numbers are kept exact; their two-decimal
      display is not modelled. */
  datatype Value =
    | Flag(present: nat)                  // salutation and flow: 1 or 0
    | Fraction(found: nat, outOf: nat)    // keywords found out of 8
    | Amount(x: real)                     // speech rate, grammar proxy, TTR
    | FillerAmount(rate: real, count: nat)

  /** A metric's feedback: a fixed sentence, or for keyword presence the
      count found and the dimensions missing, in dimension order. */
  datatype Feedback = Sentence(m: Message) | KeywordSummary(found: nat, missing: seq<string>)

  datatype MetricResult = MetricResult(value: Value, score: nat, feedback: Feedback, weight: nat)

  datatype CategoryResult = CategoryResult(total: nat, metrics: seq<(MetricName, MetricResult)>)

  datatype ScoreResult = ScoreResult(
    finalScore: nat,
    totalWordCount: nat,
    totalDurationSec: real,
    detailedFeedback: seq<(CategoryName, CategoryResult)>,
    overallFeedback: Message)

  /** The keyword denominator is the fixed count of defined dimensions. */
  const KeywordsDefined: nat := 8

  /** `int(30 * (found / 8))`: the keyword score. */
  function KeywordScore(found: nat): (score: nat)
    ensures found <= KeywordsDefined ==> score <= KeywordMaxScore
  {
    KeywordMaxScore * found / KeywordsDefined
  }

  /** The keyword score is 30 times the fraction found, rounded down: 0 for
      none found, 30 for all eight. */
  lemma KeywordScoreFloor(found: nat)
    ensures KeywordScore(found) as real <= KeywordMaxScore as real * (found as real / KeywordsDefined as real)
    ensures KeywordMaxScore as real * (found as real / KeywordsDefined as real) < KeywordScore(found) as real + 1.0
    ensures found == 0 ==> KeywordScore(found) == 0
    ensures found == KeywordsDefined ==> KeywordScore(found) == KeywordMaxScore
  {
    var s := KeywordScore(found);
    assert 8 * s <= 30 * found < 8 * s + 8;
    assert (s as real) * 8.0 <= (30 * found) as real < (s as real) * 8.0 + 8.0;
  }

  /** The overall feedback sentence for a final score. */
  function Overall(total: nat): Message {
    if total >= 90 then Outstanding
    else if total >= 75 then VeryStrong
    else if total >= 50 then SolidEffort
    else NeedsImprovement
  }

  /** The tiers have inclusive lower bounds 90, 75 and 50, and the four
      sentences are told apart. */
  lemma OverallTiers(total: nat)
    ensures Overall(total) == Outstanding <==> total >= 90
    ensures Overall(total) == VeryStrong <==> 75 <= total < 90
    ensures Overall(total) == SolidEffort <==> 50 <= total < 75
    ensures Overall(total) == NeedsImprovement <==> total < 50
  {
  }

  /** The raw metrics of one transcript, as the feature extractor leaves them. */
  datatype Features = Features(
    wordCount: nat,
    wpm: real,
    ttr: real,
    fillerCount: nat,
    fillerRate: real,
    foundKeywords: nat,
    keywordDetails: map<string, bool>,
    hasSalutation: bool,
    hasFlow: nat,
    grammarScoreRaw: real)

  /** Feature extraction: the first half of `analyze_transcript`. */
  function Extract(transcript: string, words: seq<string>, durationSec: real): (f: Features)
    ensures f.foundKeywords <= KeywordsDefined && f.hasFlow <= 1
  {
    var details := KeywordDetails(transcript);
    FoundAtMost(Lower(transcript), |KeywordPhrases|);
    Features(
      |words|,
      CalculateWpm(|words|, durationSec),
      CalculateTtr(words),
      FillerCount(transcript),
      FillerRate(FillerCount(transcript), |words|),
      |TrueKeys(details)|,
      details,
      HasSalutation(transcript),
      CheckFlow(transcript),
      GrammarScoreRaw(MockErrorsPer100Words))
  }

  /** The number of dimensions found is at most the number looked at. */
  lemma {:induction false} FoundAtMost(textLower: string, n: nat)
    requires n <= |KeywordPhrases|
    ensures |TrueKeys(DetailsUpTo(textLower, n))| <= n
  {
    if n > 0 {
      FoundAtMost(textLower, n - 1);
      var before := DetailsUpTo(textLower, n - 1);
      var key := KeywordPhrases[n - 1].0;
      var after := DetailsUpTo(textLower, n);
      assert after == before[key := AnyPhrase(textLower, KeywordPhrases[n - 1].1)];
      assert TrueKeys(after) <= TrueKeys(before) + {key};
      SubsetCard(TrueKeys(after), TrueKeys(before) + {key});
      assert |TrueKeys(before) + {key}| <= |TrueKeys(before)| + 1;
    }
  }

  lemma SubsetCard<T>(a: set<T>, b: set<T>)
    requires a <= b
    ensures |a| <= |b|
  {
    assert b == a + (b - a);
  }

  function ContentScores(f: Features): CategoryResult {
    var salutation := MetricResult(
      Flag(if f.hasSalutation then 1 else 0),
      if f.hasSalutation then SalutationPassScore else 0,
      Sentence(if f.hasSalutation then SalutationPresent else SalutationMissing),
      5);
    var keywords := MetricResult(
      Fraction(f.foundKeywords, KeywordsDefined),
      KeywordScore(f.foundKeywords),
      KeywordSummary(f.foundKeywords, MissingKeys(f.keywordDetails)),
      30);
    var flow := MetricResult(
      Flag(f.hasFlow),
      if f.hasFlow == 1 then FlowPassScore else 0,
      Sentence(if f.hasFlow == 1 then FlowFollowed else FlowBroken),
      5);
    CategoryResult(salutation.score + keywords.score + flow.score,
      [(SalutationLevel, salutation), (KeywordPresence, keywords), (Flow, flow)])
  }

  function BucketMetric(v: Value, x: real, buckets: seq<Bucket>, weight: nat): MetricResult
    requires |buckets| > 0
  {
    var b := Select(buckets, x);
    MetricResult(v, b.score, Sentence(b.feedback), weight)
  }

  function SpeechScores(f: Features): CategoryResult {
    var wpm := BucketMetric(Amount(f.wpm), f.wpm, WpmBuckets, 10);
    CategoryResult(wpm.score, [(SpeechRateWpm, wpm)])
  }

  function LanguageScores(f: Features): CategoryResult {
    var grammar := BucketMetric(Amount(f.grammarScoreRaw), f.grammarScoreRaw, GrammarBuckets, 10);
    var ttr := BucketMetric(Amount(f.ttr), f.ttr, TtrBuckets, 10);
    CategoryResult(grammar.score + ttr.score, [(GrammarErrors, grammar), (VocabularyRichness, ttr)])
  }

  function ClarityScores(f: Features): CategoryResult {
    var filler := BucketMetric(FillerAmount(f.fillerRate, f.fillerCount), f.fillerRate, FillerBuckets, 30);
    CategoryResult(filler.score, [(FillerWordRate, filler)])
  }

  /** The result of four scored categories: the categories in catalog
      order, their totals summed into the final score, and that score's
      overall feedback. */
  function Assemble(content: CategoryResult, speech: CategoryResult, language: CategoryResult,
                    clarity: CategoryResult, wordCount: nat, durationSec: real): ScoreResult {
    var total := content.total + speech.total + language.total + clarity.total;
    ScoreResult(
      total, wordCount, durationSec,
      [(ContentAndStructure, content), (SpeechRate, speech), (LanguageAndGrammar, language), (Clarity, clarity)],
      Overall(total))
  }

  /** Scoring of extracted features: the second half of `analyze_transcript`. */
  function Evaluate(f: Features, durationSec: real): ScoreResult {
    Assemble(ContentScores(f), SpeechScores(f), LanguageScores(f), ClarityScores(f), f.wordCount, durationSec)
  }

  /** What `analyze_transcript` returns for a transcript, the words its
      tokenizer produced, and a duration. */
  function Analysis(transcript: string, words: seq<string>, durationSec: real): ScoreResult {
    Evaluate(Extract(transcript, words, durationSec), durationSec)
  }

  /** The first half of `analyze_transcript`: the raw metrics of the
      transcript and of the words its tokenizer produced. */
  method ExtractFeatures(transcript: string, words: seq<string>, durationSec: real) returns (f: Features)
    ensures f == Extract(transcript, words, durationSec)
  {
    var wordCount := |words|;
    var wpm := CalculateWpm(wordCount, durationSec);
    var ttr := CalculateTtr(words);
    var fillerCount := CountFillerWords(transcript);
    var fillerRate := FillerRate(fillerCount, wordCount);
    var foundKeywords, keywordDetails := CheckContentKeywords(transcript);
    var hasSalutation := HasSalutation(transcript);
    var hasFlow := CheckFlow(transcript);
    var errorsPer100Words := MockErrorsPer100Words;
    var grammarScoreRaw := GrammarScoreRaw(errorsPer100Words);
    f := Features(wordCount, wpm, ttr, fillerCount, fillerRate, foundKeywords, keywordDetails,
                  hasSalutation, hasFlow, grammarScoreRaw);
  }

  /** The Content & Structure block of `analyze_transcript`: salutation,
      keyword presence and flow, with the category's running total. */
  method ScoreContent(f: Features) returns (contentScores: CategoryResult)
    ensures contentScores == ContentScores(f)
  {
    var contentTotal: nat := 0;
    var scoreSalutation: nat := if f.hasSalutation then 5 else 0;
    var feedbackSalutation := if f.hasSalutation then SalutationPresent else SalutationMissing;
    var salutation := MetricResult(Flag(if f.hasSalutation then 1 else 0), scoreSalutation, Sentence(feedbackSalutation), 5);
    contentTotal := contentTotal + scoreSalutation;
    var scoreKeyword := KeywordMaxScore * f.foundKeywords / 8;
    var keywords := MetricResult(Fraction(f.foundKeywords, 8), scoreKeyword,
                                 KeywordSummary(f.foundKeywords, MissingKeys(f.keywordDetails)), 30);
    contentTotal := contentTotal + scoreKeyword;
    var scoreFlow: nat := if f.hasFlow == 1 then 5 else 0;
    var feedbackFlow := if f.hasFlow == 1 then FlowFollowed else FlowBroken;
    var flow := MetricResult(Flag(f.hasFlow), scoreFlow, Sentence(feedbackFlow), 5);
    contentTotal := contentTotal + scoreFlow;
    contentScores := CategoryResult(contentTotal,
      [(SalutationLevel, salutation), (KeywordPresence, keywords), (Flow, flow)]);
  }

  /** The Speech Rate block: the speech rate against its buckets. */
  method ScoreSpeech(f: Features) returns (speechScores: CategoryResult)
    ensures speechScores == SpeechScores(f)
  {
    var scoreWpm, feedbackWpm := GetScoreAndFeedback(f.wpm, WpmBuckets);
    speechScores := CategoryResult(scoreWpm,
      [(SpeechRateWpm, MetricResult(Amount(f.wpm), scoreWpm, Sentence(feedbackWpm), 10))]);
  }

  /** The Language & Grammar block: the grammar proxy and the TTR against
      their buckets, with the category's running total. */
  method ScoreLanguage(f: Features) returns (langScores: CategoryResult)
    ensures langScores == LanguageScores(f)
  {
    var langTotal: nat := 0;
    var scoreGrammar, feedbackGrammar := GetScoreAndFeedback(f.grammarScoreRaw, GrammarBuckets);
    var grammar := MetricResult(Amount(f.grammarScoreRaw), scoreGrammar, Sentence(feedbackGrammar), 10);
    langTotal := langTotal + scoreGrammar;
    var scoreTtr, feedbackTtr := GetScoreAndFeedback(f.ttr, TtrBuckets);
    var vocabulary := MetricResult(Amount(f.ttr), scoreTtr, Sentence(feedbackTtr), 10);
    langTotal := langTotal + scoreTtr;
    langScores := CategoryResult(langTotal,
      [(GrammarErrors, grammar), (VocabularyRichness, vocabulary)]);
  }

  /** The Clarity block: the filler rate against its buckets. */
  method ScoreClarity(f: Features) returns (clarityScores: CategoryResult)
    ensures clarityScores == ClarityScores(f)
  {
    var scoreFiller, feedbackFiller := GetScoreAndFeedback(f.fillerRate, FillerBuckets);
    clarityScores := CategoryResult(scoreFiller,
      [(FillerWordRate, MetricResult(FillerAmount(f.fillerRate, f.fillerCount), scoreFiller, Sentence(feedbackFiller), 30))]);
  }

  /** The second half of `analyze_transcript`: scores the four categories in
      order, accumulates the final score category by category and chooses
      the overall feedback. */
  method ScoreFeatures(f: Features, durationSec: real) returns (result: ScoreResult)
    ensures result == Evaluate(f, durationSec)
  {
    var totalScore: nat := 0;
    var contentScores := ScoreContent(f);
    totalScore := totalScore + contentScores.total;
    var speechScores := ScoreSpeech(f);
    totalScore := totalScore + speechScores.total;
    var langScores := ScoreLanguage(f);
    totalScore := totalScore + langScores.total;
    var clarityScores := ScoreClarity(f);
    totalScore := totalScore + clarityScores.total;

    var detailedScores := [(ContentAndStructure, contentScores), (SpeechRate, speechScores),
                           (LanguageAndGrammar, langScores), (Clarity, clarityScores)];
    var overallFeedback := Overall(totalScore);
    result := ScoreResult(totalScore, f.wordCount, durationSec, detailedScores, overallFeedback);
  }

  /** `analyze_transcript`: the raw metrics, then their scores. */
  method AnalyzeTranscript(transcript: string, words: seq<string>, durationSec: real) returns (result: ScoreResult)
    ensures result == Analysis(transcript, words, durationSec)
  {
    var f := ExtractFeatures(transcript, words, durationSec);
    result := ScoreFeatures(f, durationSec);
  }

  // ---------------------------------------------------------------------
  // Properties of the aggregate

  function MetricScoreSum(ms: seq<(MetricName, MetricResult)>, from: nat): nat
    decreases |ms| - from
  {
    if from >= |ms| then 0 else ms[from].1.score + MetricScoreSum(ms, from + 1)
  }

  function CategoryTotalSum(cs: seq<(CategoryName, CategoryResult)>, from: nat): nat
    decreases |cs| - from
  {
    if from >= |cs| then 0 else cs[from].1.total + CategoryTotalSum(cs, from + 1)
  }

  /** The shape of an evaluation: four categories in catalog order, their
      totals summed into the final score, and the tier of that score. */
  lemma EvaluateShape(f: Features, durationSec: real)
    ensures Evaluate(f, durationSec).detailedFeedback ==
      [(ContentAndStructure, ContentScores(f)), (SpeechRate, SpeechScores(f)),
       (LanguageAndGrammar, LanguageScores(f)), (Clarity, ClarityScores(f))]
    ensures Evaluate(f, durationSec).finalScore ==
      ContentScores(f).total + SpeechScores(f).total + LanguageScores(f).total + ClarityScores(f).total
    ensures Evaluate(f, durationSec).overallFeedback == Overall(Evaluate(f, durationSec).finalScore)
    ensures Evaluate(f, durationSec).totalWordCount == f.wordCount
    ensures Evaluate(f, durationSec).totalDurationSec == durationSec
  {
    AssembleShape(ContentScores(f), SpeechScores(f), LanguageScores(f), ClarityScores(f), f.wordCount, durationSec);
  }

  lemma AssembleShape(content: CategoryResult, speech: CategoryResult, language: CategoryResult,
                      clarity: CategoryResult, wordCount: nat, durationSec: real)
    ensures Assemble(content, speech, language, clarity, wordCount, durationSec).detailedFeedback ==
      [(ContentAndStructure, content), (SpeechRate, speech), (LanguageAndGrammar, language), (Clarity, clarity)]
    ensures Assemble(content, speech, language, clarity, wordCount, durationSec).finalScore ==
      content.total + speech.total + language.total + clarity.total
    ensures Assemble(content, speech, language, clarity, wordCount, durationSec).overallFeedback ==
      Overall(Assemble(content, speech, language, clarity, wordCount, durationSec).finalScore)
    ensures Assemble(content, speech, language, clarity, wordCount, durationSec).totalWordCount == wordCount
    ensures Assemble(content, speech, language, clarity, wordCount, durationSec).totalDurationSec == durationSec
  {
  }

  /** A category's total is the sum of its metric scores. */
  predicate SumsUp(c: CategoryResult) {
    c.total == MetricScoreSum(c.metrics, 0)
  }

  /** No metric of a category scores more than its weight. */
  predicate WithinWeights(c: CategoryResult) {
    forall j :: 0 <= j < |c.metrics| ==> c.metrics[j].1.score <= c.metrics[j].1.weight
  }

  lemma SumOfScores(ms: seq<(MetricName, MetricResult)>)
    ensures |ms| == 1 ==> MetricScoreSum(ms, 0) == ms[0].1.score
    ensures |ms| == 2 ==> MetricScoreSum(ms, 0) == ms[0].1.score + ms[1].1.score
    ensures |ms| == 3 ==> MetricScoreSum(ms, 0) == ms[0].1.score + ms[1].1.score + ms[2].1.score
  {
    if 1 <= |ms| <= 3 {
      assert MetricScoreSum(ms, |ms|) == 0;
    }
    if |ms| == 3 {
      assert MetricScoreSum(ms, 2) == ms[2].1.score;
    }
  }

  lemma ContentSumsUp(f: Features)
    ensures SumsUp(ContentScores(f))
  {
    SumOfScores(ContentScores(f).metrics);
  }

  lemma SpeechSumsUp(f: Features)
    ensures SumsUp(SpeechScores(f))
  {
    SumOfScores(SpeechScores(f).metrics);
  }

  lemma LanguageSumsUp(f: Features)
    ensures SumsUp(LanguageScores(f))
  {
    SumOfScores(LanguageScores(f).metrics);
  }

  lemma ClaritySumsUp(f: Features)
    ensures SumsUp(ClarityScores(f))
  {
    SumOfScores(ClarityScores(f).metrics);
  }

  lemma AllSumUp(cs: seq<(CategoryName, CategoryResult)>)
    requires |cs| == 4 && SumsUp(cs[0].1) && SumsUp(cs[1].1) && SumsUp(cs[2].1) && SumsUp(cs[3].1)
    ensures forall i :: 0 <= i < |cs| ==> SumsUp(cs[i].1)
  {
  }

  lemma AllWithinWeights(cs: seq<(CategoryName, CategoryResult)>)
    requires |cs| == 4
    requires WithinWeights(cs[0].1) && WithinWeights(cs[1].1) && WithinWeights(cs[2].1) && WithinWeights(cs[3].1)
    ensures forall i :: 0 <= i < |cs| ==> WithinWeights(cs[i].1)
  {
  }

  lemma MetricsSumUp(f: Features, durationSec: real)
    ensures var r := Evaluate(f, durationSec);
      forall i :: 0 <= i < |r.detailedFeedback| ==> SumsUp(r.detailedFeedback[i].1)
  {
    EvaluateShape(f, durationSec);
    ContentSumsUp(f);
    SpeechSumsUp(f);
    LanguageSumsUp(f);
    ClaritySumsUp(f);
    AllSumUp(Evaluate(f, durationSec).detailedFeedback);
  }

  lemma CategoriesSumUp(f: Features, durationSec: real)
    ensures var r := Evaluate(f, durationSec);
      |r.detailedFeedback| == 4 && r.finalScore == CategoryTotalSum(r.detailedFeedback, 0)
  {
    EvaluateShape(f, durationSec);
    var cs := Evaluate(f, durationSec).detailedFeedback;
    assert CategoryTotalSum(cs, 3) == cs[3].1.total;
    assert CategoryTotalSum(cs, 2) == cs[2].1.total + cs[3].1.total;
    assert CategoryTotalSum(cs, 1) == cs[1].1.total + cs[2].1.total + cs[3].1.total;
  }

  /** Each category's total is the sum of its metric scores, the final score
      is the sum of the category totals, and the overall feedback is the
      tier of the final score. */
  lemma ScoreIsSumOfMetrics(f: Features, durationSec: real)
    ensures var r := Evaluate(f, durationSec);
      && |r.detailedFeedback| == 4
      && (forall i :: 0 <= i < |r.detailedFeedback| ==> SumsUp(r.detailedFeedback[i].1))
      && r.finalScore == CategoryTotalSum(r.detailedFeedback, 0)
      && r.overallFeedback == Overall(r.finalScore)
  {
    EvaluateShape(f, durationSec);
    MetricsSumUp(f, durationSec);
    CategoriesSumUp(f, durationSec);
  }

  /** Content & Structure awards at most 40 and no metric above its weight
      when no more than the eight defined dimensions are found. */
  lemma ContentBounds(f: Features)
    requires f.foundKeywords <= KeywordsDefined
    ensures WithinWeights(ContentScores(f)) && ContentScores(f).total <= 40
  {
  }

  lemma SpeechBounds(f: Features)
    ensures WithinWeights(SpeechScores(f)) && SpeechScores(f).total <= 10
  {
    BucketMaxima();
  }

  lemma LanguageBounds(f: Features)
    ensures WithinWeights(LanguageScores(f)) && LanguageScores(f).total <= 20
  {
    BucketMaxima();
  }

  lemma ClarityBounds(f: Features)
    ensures WithinWeights(ClarityScores(f)) && ClarityScores(f).total <= 30
  {
    BucketMaxima();
  }

  /** No metric scores more than its weight, and the final score lies in
      0..100. */
  lemma ScoreBounds(f: Features, durationSec: real)
    requires f.foundKeywords <= KeywordsDefined
    ensures var r := Evaluate(f, durationSec);
      && (forall i :: 0 <= i < |r.detailedFeedback| ==> WithinWeights(r.detailedFeedback[i].1))
      && r.finalScore <= 100
  {
    EvaluateShape(f, durationSec);
    ContentBounds(f);
    SpeechBounds(f);
    LanguageBounds(f);
    ClarityBounds(f);
    AllWithinWeights(Evaluate(f, durationSec).detailedFeedback);
  }

  /** The grammar proxy is the constant 0.92 for every transcript, so the
      grammar metric always scores 10. */
  lemma GrammarAlwaysTen(transcript: string, words: seq<string>, durationSec: real)
    ensures var r := Analysis(transcript, words, durationSec);
      && |r.detailedFeedback| == 4
      && r.detailedFeedback[2].0 == LanguageAndGrammar
      && |r.detailedFeedback[2].1.metrics| == 2
      && r.detailedFeedback[2].1.metrics[0] ==
         (GrammarErrors, MetricResult(Amount(0.92), 10, Sentence(GrammarImpeccable), 10))
  {
    var f := Extract(transcript, words, durationSec);
    EvaluateShape(f, durationSec);
    assert f.grammarScoreRaw == 0.92;
    GrammarScore(0.92);
  }

  /** With no words the speech rate and TTR are 0 and the filler rate is
      the 100% penalty. */
  lemma NoWordsFeatures(transcript: string, durationSec: real)
    ensures var f := Extract(transcript, [], durationSec);
      f.wpm == 0.0 && f.ttr == 0.0 && f.fillerRate == 100.0 && f.grammarScoreRaw == 0.92
  {
  }

  /** A transcript with no words scores 2 for speech rate (0 WPM), 2 for
      vocabulary (TTR 0.0), 10 for grammar, and 5 for clarity (filler rate
      100%), whatever its duration. */
  lemma NoWords(transcript: string, durationSec: real)
    ensures var r := Analysis(transcript, [], durationSec);
      && |r.detailedFeedback| == 4
      && r.detailedFeedback[1].1.total == 2
      && r.detailedFeedback[2].1.total == 12
      && r.detailedFeedback[3].1.total == 5
      && |r.detailedFeedback[3].1.metrics| == 1
      && r.detailedFeedback[3].1.metrics[0].1.value.FillerAmount?
      && r.detailedFeedback[3].1.metrics[0].1.value.rate == 100.0
  {
    var f := Extract(transcript, [], durationSec);
    NoWordsFeatures(transcript, durationSec);
    EvaluateShape(f, durationSec);
    WpmScore(0.0);
    TtrScore(0.0);
    GrammarScore(0.92);
    FillerScore(100.0);
    assert SpeechScores(f).total == 2;
    assert LanguageScores(f).total == 12;
    assert ClarityScores(f).total == 5;
  }

  /** 100 words in 60 seconds is 100 WPM, in the 81-110 bucket: score 6. */
  lemma HundredWordsInAMinute(transcript: string, words: seq<string>)
    requires |words| == 100
    ensures var r := Analysis(transcript, words, 60.0);
      && |r.detailedFeedback| == 4
      && |r.detailedFeedback[1].1.metrics| == 1
      && r.detailedFeedback[1].1.metrics[0].1.value == Amount(100.0)
      && r.detailedFeedback[1].1.metrics[0].1.score == 6
  {
    var f := Extract(transcript, words, 60.0);
    EvaluateShape(f, 60.0);
    assert f.wpm == 100.0;
    WpmScore(100.0);
  }

  /** A transcript meeting every criterion (salutation, flow, all eight
      dimensions, 111-140 WPM, TTR at least 0.9, filler rate below 1%)
      scores exactly 100 and gets the outstanding feedback. */
  lemma PerfectTranscript(transcript: string, words: seq<string>, durationSec: real)
    requires HasSalutation(transcript) && CheckFlow(transcript) == 1
    requires FoundCount(transcript) == KeywordsDefined
    requires 111.0 <= CalculateWpm(|words|, durationSec) <= 140.0
    requires CalculateTtr(words) >= 0.9
    requires FillerRate(FillerCount(transcript), |words|) < 1.0
    ensures Analysis(transcript, words, durationSec).finalScore == 100
    ensures Analysis(transcript, words, durationSec).overallFeedback == Outstanding
  {
    var f := Extract(transcript, words, durationSec);
    EvaluateShape(f, durationSec);
    assert f.ttr <= 1.0;
    WpmScore(f.wpm);
    TtrScore(f.ttr);
    FillerScore(f.fillerRate);
    GrammarScore(f.grammarScoreRaw);
    KeywordScoreFloor(f.foundKeywords);
    assert ContentScores(f).total == 40;
    assert SpeechScores(f).total == 10;
    assert LanguageScores(f).total == 20;
    assert ClarityScores(f).total == 30;
  }

  /** The request handler replaces a duration that is not positive by 60
      seconds before scoring. */
  function RequestDuration(durationSec: real): (d: real)
    ensures d > 0.0
    ensures durationSec > 0.0 ==> d == durationSec
  {
    if durationSec <= 0.0 then 60.0 else durationSec
  }

  /** Through the handler, the speech rate always follows the words-per-
      minute formula and never takes the zero branch. */
  lemma HandlerRate(wordCount: nat, durationSec: real)
    ensures CalculateWpm(wordCount, RequestDuration(durationSec)) * RequestDuration(durationSec) == 60.0 * wordCount as real
    ensures durationSec <= 0.0 ==> CalculateWpm(wordCount, RequestDuration(durationSec)) == wordCount as real
  {
    WpmFormula(wordCount, RequestDuration(durationSec));
  }
}
