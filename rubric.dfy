/** The rubric catalog: categories, then metrics, each with a weight and
    either a pass/threshold rule, a keyword-count rule or an ordered list of
    scoring buckets. The free-text range strings of the catalog ("111 - 140
    WPM", "> 0.9", "0.9–1.0", "1.0% - 1.9%") are given here as structured
    ranges, chosen once when the catalog is built. */
module Rubric {

  /** A bucket's range: `< x` and `> x` are strict, `low - high`,
      `low to high` and `low–high` are inclusive at both ends. */
  datatype Range = Lt(bound: real) | Gt(bound: real) | Closed(lo: real, hi: real)

  /** The fixed feedback sentences of the engine, one tag each; `Wording`
      gives the exact sentence a tag stands for. */
  datatype Message =
    | PaceExcellent | PaceFast | PaceSlow | PaceTooSlow
    | GrammarImpeccable | GrammarGood | GrammarAverage | GrammarWeak | GrammarSevere
    | VocabularyExcellent | VocabularyGood | VocabularyAcceptable | VocabularyLow | VocabularyVeryLow
    | ClarityExceptional | ClarityVeryGood | ClarityGood | ClarityAverage | ClarityLow | ClarityVeryLow
    | SalutationPresent | SalutationMissing | FlowFollowed | FlowBroken
    | Outstanding | VeryStrong | SolidEffort | NeedsImprovement

  function Wording(m: Message): string {
    match m
    case PaceExcellent => "Excellent pace! Very comfortable for listening."
    case PaceFast => "A bit too fast. Try to slow down for better clarity."
    case PaceSlow => "A bit slow. Speed up slightly to keep listeners engaged."
    case PaceTooSlow => "Too slow. The pace significantly impacts engagement."
    case GrammarImpeccable => "Impeccable grammar. Very high quality language use."
    case GrammarGood => "Good grammar, only minor, non-distracting errors."
    case GrammarAverage => "Average grammar, with a few noticeable errors."
    case GrammarWeak => "Needs significant improvement in grammar and sentence structure."
    case GrammarSevere => "Severe grammar issues that compromise clarity."
    case VocabularyExcellent => "Excellent vocabulary richness (TTR). Diverse and engaging word choices."
    case VocabularyGood => "Good vocabulary. Sufficient variation in word choice."
    case VocabularyAcceptable => "Acceptable vocabulary, but could be more diverse."
    case VocabularyLow => "Low vocabulary richness. Repetitive and basic word usage."
    case VocabularyVeryLow => "Very low vocabulary richness, making the text monotonous."
    case ClarityExceptional => "Exceptional clarity. No distracting filler words."
    case ClarityVeryGood => "Very good clarity. Minimal use of filler words."
    case ClarityGood => "Good clarity. Filler usage is present but not excessive."
    case ClarityAverage => "Average clarity. Reduce filler words for better impact."
    case ClarityLow => "Low clarity. Excessive filler words distract the listener."
    case ClarityVeryLow => "Very low clarity. The presentation is heavily disrupted by filler words."
    case SalutationPresent => "Clear salutation present."
    case SalutationMissing => "Missing a clear, engaging salutation."
    case FlowFollowed => "The introduction follows a logical start-to-end structure."
    case FlowBroken => "The flow is hard to follow. Ensure a clear start and end."
    case Outstanding =>
      "Outstanding introduction! All criteria were met with high marks, demonstrating excellent preparation and delivery."
    case VeryStrong =>
      "Very strong performance. Good grasp of content, flow, and clarity. Review areas with scores below 10 for continuous improvement."
    case SolidEffort =>
      "Solid effort. The core content is present, but work on one or two specific areas (like WPM or Filler Rate) could significantly boost your score."
    case NeedsImprovement =>
      "Needs improvement. Focus on ensuring all mandatory content points are covered and practicing your delivery for better pace and clarity."
  }

  datatype Bucket = Bucket(range: Range, score: nat, feedback: Message)

  datatype Rule =
    | Threshold(passScore: nat, threshold: nat)
    | KeywordCount(keywords: seq<string>, maxScore: nat)
    | Buckets(buckets: seq<Bucket>)

  /** The four categories and seven metrics, one tag each; `CategoryLabel`
      and `MetricLabel` give the names the results are keyed by. */
  datatype CategoryName = ContentAndStructure | SpeechRate | LanguageAndGrammar | Clarity

  datatype MetricName =
    | SalutationLevel | KeywordPresence | Flow
    | SpeechRateWpm
    | GrammarErrors | VocabularyRichness
    | FillerWordRate

  function CategoryLabel(c: CategoryName): string {
    match c
    case ContentAndStructure => "Content & Structure"
    case SpeechRate => "Speech Rate"
    case LanguageAndGrammar => "Language & Grammar"
    case Clarity => "Clarity"
  }

  function MetricLabel(m: MetricName): string {
    match m
    case SalutationLevel => "Salutation Level"
    case KeywordPresence => "Key word Presence"
    case Flow => "Flow"
    case SpeechRateWpm => "Speech rate (WPM)"
    case GrammarErrors => "Grammar errors (Score)"
    case VocabularyRichness => "Vocabulary richness (TTR)"
    case FillerWordRate => "Filler Word Rate"
  }

  datatype Metric = Metric(name: MetricName, weight: nat, rule: Rule)

  datatype Category = Category(name: CategoryName, weight: nat, metrics: seq<Metric>)

  const SalutationPassScore: nat := 5
  const FlowPassScore: nat := 5
  const KeywordMaxScore: nat := 30

  const ContentKeywords: seq<string> :=
    ["name", "age", "class", "school", "family", "hobbies", "goals", "unique point"]

  /** Speech rate: the ideal middle interval is listed first. */
  const WpmBuckets: seq<Bucket> := [
    Bucket(Closed(111.0, 140.0), 10, PaceExcellent),
    Bucket(Gt(140.0), 6, PaceFast),
    Bucket(Closed(81.0, 110.0), 6, PaceSlow),
    Bucket(Lt(80.0), 2, PaceTooSlow)
  ]

  const GrammarBuckets: seq<Bucket> := [
    Bucket(Gt(0.9), 10, GrammarImpeccable),
    Bucket(Closed(0.7, 0.89), 8, GrammarGood),
    Bucket(Closed(0.5, 0.69), 6, GrammarAverage),
    Bucket(Closed(0.3, 0.49), 4, GrammarWeak),
    Bucket(Lt(0.3), 2, GrammarSevere)
  ]

  const TtrBuckets: seq<Bucket> := [
    Bucket(Closed(0.9, 1.0), 10, VocabularyExcellent),
    Bucket(Closed(0.7, 0.89), 8, VocabularyGood),
    Bucket(Closed(0.5, 0.69), 6, VocabularyAcceptable),
    Bucket(Closed(0.3, 0.49), 4, VocabularyLow),
    Bucket(Closed(0.0, 0.29), 2, VocabularyVeryLow)
  ]

  /** Filler-word rate in percent: lower is better. */
  const FillerBuckets: seq<Bucket> := [
    Bucket(Lt(1.0), 30, ClarityExceptional),
    Bucket(Closed(1.0, 1.9), 25, ClarityVeryGood),
    Bucket(Closed(2.0, 2.9), 20, ClarityGood),
    Bucket(Closed(3.0, 3.9), 15, ClarityAverage),
    Bucket(Closed(4.0, 4.9), 10, ClarityLow),
    Bucket(Gt(5.0), 5, ClarityVeryLow)
  ]

  /** The whole catalog, in its fixed category and metric order. */
  const Catalog: seq<Category> := [
    Category(ContentAndStructure, 40, [
      Metric(SalutationLevel, 5, Threshold(SalutationPassScore, 1)),
      Metric(KeywordPresence, 30, KeywordCount(ContentKeywords, KeywordMaxScore)),
      Metric(Flow, 5, Threshold(FlowPassScore, 1))
    ]),
    Category(SpeechRate, 10, [
      Metric(SpeechRateWpm, 10, Buckets(WpmBuckets))
    ]),
    Category(LanguageAndGrammar, 20, [
      Metric(GrammarErrors, 10, Buckets(GrammarBuckets)),
      Metric(VocabularyRichness, 10, Buckets(TtrBuckets))
    ]),
    Category(Clarity, 30, [
      Metric(FillerWordRate, 30, Buckets(FillerBuckets))
    ])
  ]

  function MetricWeights(ms: seq<Metric>, from: nat): nat
    decreases |ms| - from
  {
    if from >= |ms| then 0 else ms[from].weight + MetricWeights(ms, from + 1)
  }

  function CategoryWeights(cs: seq<Category>, from: nat): nat
    decreases |cs| - from
  {
    if from >= |cs| then 0 else cs[from].weight + CategoryWeights(cs, from + 1)
  }

  /** The most a rule can award. */
  function RuleMax(r: Rule): nat {
    match r
    case Threshold(pass, _) => pass
    case KeywordCount(_, max) => max
    case Buckets(bs) => BucketMax(bs, 0)
  }

  /** The best score among the buckets from index `from` on. */
  function BucketMax(bs: seq<Bucket>, from: nat): (m: nat)
    ensures forall i :: from <= i < |bs| ==> bs[i].score <= m
    decreases |bs| - from
  {
    if from >= |bs| then 0
    else
      var rest := BucketMax(bs, from + 1);
      if bs[from].score >= rest then bs[from].score else rest
  }

  /** Each bucket list's best bucket awards exactly the metric's weight. */
  lemma BucketMaxima()
    ensures BucketMax(WpmBuckets, 0) == 10
    ensures BucketMax(GrammarBuckets, 0) == 10
    ensures BucketMax(TtrBuckets, 0) == 10
    ensures BucketMax(FillerBuckets, 0) == 30
  {
    assert BucketMax(WpmBuckets, 2) == 6;
    assert BucketMax(GrammarBuckets, 3) == 4;
    assert BucketMax(GrammarBuckets, 1) == 8;
    assert BucketMax(TtrBuckets, 3) == 4;
    assert BucketMax(TtrBuckets, 1) == 8;
    assert BucketMax(FillerBuckets, 4) == 10;
    assert BucketMax(FillerBuckets, 2) == 20;
  }

  /** The catalog is consistent: every metric can award exactly its weight
      and no more, every category weight is the sum of its metric weights,
      and the category weights sum to 100, the documented maximum of the
      final score. */
  lemma CatalogConsistent()
    ensures forall i :: 0 <= i < |Catalog| ==> Catalog[i].weight == MetricWeights(Catalog[i].metrics, 0)
    ensures forall i, j :: 0 <= i < |Catalog| && 0 <= j < |Catalog[i].metrics| ==>
              RuleMax(Catalog[i].metrics[j].rule) == Catalog[i].metrics[j].weight
    ensures CategoryWeights(Catalog, 0) == 100
  {
    BucketMaxima();
    assert MetricWeights(Catalog[0].metrics, 2) == 5;
    assert MetricWeights(Catalog[0].metrics, 1) == 35;
    assert MetricWeights(Catalog[2].metrics, 1) == 10;
    assert CategoryWeights(Catalog, 3) == 30;
    assert CategoryWeights(Catalog, 2) == 50;
    assert CategoryWeights(Catalog, 1) == 60;
  }
}
