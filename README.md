# Rubric scoring engine for spoken self-introductions

This project models the scoring core of `completecode.py` in Dafny. The
engine takes a transcript of a spoken self-introduction, the words its
tokenizer produced and the speaking time. It scores seven metrics against a
fixed rubric: salutation, keyword presence, flow, speech rate, grammar,
vocabulary richness and filler-word rate. It then sums the metric scores
into four category totals and a final score out of 100, and picks one of
four overall-feedback sentences.

The model has six modules:

- `Wrappers` holds `Option`.
- `Text` holds the string primitives the engine relies on: ASCII
  `str.lower`, the `\w` and `\s` classes, substring search, `startswith`,
  the suffix slice `s[-50:]`, the word boundary `\b` and the regular-expression
  fallback tokenizer, which is proved to return the maximal runs of word
  characters of the text at their positions, left to right, each run once.
- `Rubric` holds the rubric catalog: categories, metrics, weights, rules and
  the ordered bucket lists. Feedback sentences and category and metric names
  are tags. `Wording`, `CategoryLabel` and `MetricLabel` give the exact text
  each tag stands for.
- `Matcher` holds the bucket matcher `get_score_and_feedback`. It takes the
  first bucket in list order whose range holds the value, and falls back to
  the last bucket. There is also a score table for each bucket list, which
  states exactly which values fall into the gaps between ranges.
- `Metrics` holds the calculators. `count_filler_words` and
  `check_content_keywords` are methods with loops, each proved against a
  specification function.
- `Scoring` holds `analyze_transcript`:
  - feature extraction (`ExtractFeatures`, specified by `Extract`);
  - one method per rubric category, each proved against its category function;
  - `ScoreFeatures`, which keeps the running total;
  - `AnalyzeTranscript`, proved equal to the specification function `Analysis`;
  - lemmas about the aggregate: sums, bounds, the grammar constant, the
    no-word transcript, and the perfect transcript.

The Dafny code follows the source where the source and its written
description disagree:

- Flow (`check_flow`) is not "salutation and closing". It uses its own
  greeting list: "hello", "good morning" and "greetings", with no "good day".
  It does not trim leading whitespace, while the salutation metric does.
  `IndentedGreetingHasNoFlow` shows a transcript with a salutation and no flow.
- The request handler replaces a duration that is not positive by 60
  seconds, not by 1 second (`RequestDuration`).

## Model

| member | source | states |
|---|---|---|
| Rubric.CatalogConsistent | completecode.py:12-93 | every metric can award exactly its weight, each category weight is the sum of its metric weights, and the category weights sum to 100 |
| Rubric.BucketMaxima | completecode.py:43-88 | the best bucket of the WPM, grammar, TTR and filler lists awards 10, 10, 10 and 30 |
| Matcher.FirstMatchFrom | completecode.py:188-225 | the scan returns the first index from `from` whose range holds the value, and returns none exactly when no range from there holds it |
| Matcher.Holds | completecode.py:171-223 | the range predicate of the matcher: `< x` and `> x` are strict, a `low - high` range includes both ends |
| Matcher.SelectMeaning | completecode.py:226-229 | the chosen bucket is the first holding bucket in list order, or the last bucket when none holds; it is always one of the list's buckets |
| Matcher.GetScoreAndFeedback | completecode.py:164-229 | the loop returns the score and feedback of the selected bucket |
| Matcher.EarlierBucketWins | completecode.py:188-204 | list order decides, not tightness: when two buckets hold, the later one is never chosen unless an earlier bucket is equal to it |
| Matcher.WpmScore | completecode.py:191-204 | 111..140 WPM scores 10, above 140 and 81..110 score 6, all else 2; exactly [80, 81) and (110, 111) match no bucket |
| Matcher.GrammarScore | completecode.py:58-62 | above 0.9 scores 10, then 8/6/4 for the closed ranges, else 2; exactly (0.89, 0.9], (0.69, 0.7) and (0.49, 0.5) match no bucket |
| Matcher.TtrScore | completecode.py:68-72 | 0.9..1.0 scores 10, then 8/6/4, else 2; the gaps between the ranges and values outside 0..1 match no bucket |
| Matcher.FillerScore | completecode.py:83-88 | below 1% scores 30, then 25/20/15/10, else 5; the gaps, including 5.0 itself, match no bucket |
| Metrics.CalculateWpm | completecode.py:97-101 | 0 when the duration is not positive or there are no words; never negative |
| Metrics.WpmFormula | completecode.py:101 | for a positive duration, rate times seconds is 60 times the word count |
| Metrics.TypesCount | completecode.py:107 | the distinct words number at most the words, and exactly as many when no word repeats |
| Metrics.CalculateTtr | completecode.py:103-107 | 0.0 for no words, otherwise in (0, 1], and 1.0 exactly when every word is distinct |
| Metrics.MatchesFrom | completecode.py:117 | non-overlapping whole-word matches: their count times the pattern length fits in the text |
| Metrics.MatchesZeroIff | completecode.py:117 | no match is counted exactly when the pattern has no whole-word occurrence |
| Metrics.LikeIsNotLikely | completecode.py:117 | "like" is not counted in "likely" and is counted once in "i like it" |
| Metrics.MatchesCount | completecode.py:116-117 | for a pattern that cannot overlap itself at a word boundary, the scan counts every whole-word occurrence: the count is the number of their start positions |
| Metrics.UmUmCountsTwice | completecode.py:117 | "um um" counts two matches of "um" |
| Metrics.FillersNoSelfOverlap | completecode.py:111 | none of the fifteen fillers overlaps itself, so the scan misses none of their occurrences |
| Metrics.FillerCountIsOccurrences | completecode.py:109-118 | the filler count is the total number of whole-word occurrences of the fillers in the lower-cased text |
| Metrics.CountFillerWords | completecode.py:109-118 | the loop total equals the sum over the fifteen fillers of their whole-word matches in the lower-cased text |
| Metrics.FillerCountZeroIff | completecode.py:109-118 | the filler count is 0 exactly when no filler occurs as a whole word |
| Metrics.FillerRate | completecode.py:247 | 100.0 for no words; 0.0 with words and no fillers; never negative |
| Metrics.FillerRateFormula | completecode.py:247 | with words, rate times word count is 100 times the filler count |
| Metrics.CheckContentKeywords | completecode.py:120-147 | the loop builds the dimension map and counts exactly its true entries, at most eight |
| Metrics.KeywordDetailsMeaning | completecode.py:127-145 | the map has exactly the eight dimensions as keys, and each is true exactly when one of its phrases is a substring of the lower-cased text |
| Metrics.IAmCountsTwice | completecode.py:128-129 | "i am" satisfies both the name and the age dimension |
| Metrics.MissingKeys | completecode.py:265 | every listed missing dimension is in the map and false |
| Metrics.MissingKeysMeaning | completecode.py:265 | the missing list names exactly the dimensions none of whose phrases occurs, in dimension order, each once |
| Metrics.CheckFlow | completecode.py:149-162 | the flow value is 0 or 1 |
| Metrics.CheckFlowMeaning | completecode.py:149-162 | flow is 1 exactly when the untrimmed lower-cased text starts with a flow greeting and a closing phrase lies wholly within its last 50 characters |
| Metrics.HasSalutationMeaning | completecode.py:249 | the salutation holds exactly when, after some run of leading whitespace, the lower-cased text starts with "hello", "good morning", "good day" or "greetings" |
| Metrics.FlowGreetingIsSalutation | completecode.py:154-155 | text starting with a flow greeting has no leading whitespace, and starts with a salutation greeting |
| Metrics.FlowImpliesSalutation | completecode.py:249-250 | a transcript with flow always has a salutation |
| Metrics.IndentedGreetingHasNoFlow | completecode.py:249-250 | the converse fails: an indented greeting is a salutation but never flow |
| Metrics.GrammarScoreRaw | completecode.py:251-253 | the proxy lies in 0..1 for a non-negative error rate, is 0 from 10 errors on, and is 1 minus a tenth of the rate in between |
| Text.Lower | completecode.py:114 | lower-casing keeps the length and maps every character by the ASCII rule |
| Text.ContainsTail | completecode.py:159 | a phrase is in the last n characters exactly when it occurs starting no earlier than n characters before the end |
| Text.TrimLeft | completecode.py:249 | the result is a suffix, everything removed is whitespace, and it does not start with whitespace |
| Text.WordsEmptyIff | completecode.py:11 | the fallback tokenizer finds no word exactly when the text has no word character |
| Text.WordsMeaning | completecode.py:11 | a string is a fallback token exactly when it is a maximal run of word characters of the text, with a word boundary at each end |
| Text.WordsInOrder | completecode.py:11 | the tokens sit at spans that are maximal runs with the tokens' text, strictly left to right, and every maximal run of the text is one of the spans; so the number of tokens and the place of each repeated word are fixed |
| Text.FallbackTokens | completecode.py:11 | every fallback token is a non-empty run of lower-case word characters |
| Scoring.KeywordScore | completecode.py:264 | at most 30 when at most eight dimensions are found |
| Scoring.KeywordScoreFloor | completecode.py:263-264 | the keyword score is 30 times the fraction found, rounded down: 0 for none, 30 for all eight |
| Scoring.OverallTiers | completecode.py:307-314 | the four sentences correspond exactly to scores of at least 90, 75..89, 50..74 and below 50 |
| Scoring.Extract | completecode.py:238-253 | at most eight dimensions are found and flow is 0 or 1 |
| Scoring.ExtractFeatures | completecode.py:238-253 | the raw metrics computed step by step equal the feature specification |
| Scoring.ScoreContent | completecode.py:257-272 | the Content & Structure block equals its category specification |
| Scoring.ScoreSpeech | completecode.py:276-281 | the Speech Rate block equals its category specification |
| Scoring.ScoreLanguage | completecode.py:283-297 | the Language & Grammar block equals its category specification |
| Scoring.ScoreClarity | completecode.py:299-304 | the Clarity block equals its category specification |
| Scoring.ScoreFeatures | completecode.py:255-322 | the running total, the four categories and the overall feedback equal the evaluation specification |
| Scoring.AnalyzeTranscript | completecode.py:231-322 | the whole analysis equals extraction followed by evaluation |
| Scoring.EvaluateShape | completecode.py:274-322 | four categories in catalog order, the final score is their sum, the feedback is that score's tier, and word count and duration are passed through |
| Scoring.ScoreIsSumOfMetrics | completecode.py:255-314 | each category total is the sum of its metric scores, the final score is the sum of the category totals, and the overall feedback is the tier of the final score |
| Scoring.ScoreBounds | completecode.py:255-304 | no metric scores above its weight and the final score is at most 100 |
| Scoring.GrammarAlwaysTen | completecode.py:286-289 | for every transcript the grammar metric reports 0.92 and scores 10 with the impeccable-grammar sentence |
| Scoring.NoWordsFeatures | completecode.py:244-253 | with no words, rate 0, TTR 0, filler rate 100 and grammar proxy 0.92 |
| Scoring.NoWords | completecode.py:244-304 | with no words, speech rate scores 2, language scores 12 and clarity scores 5 at a filler rate of 100% |
| Scoring.HundredWordsInAMinute | completecode.py:278-279 | 100 words in 60 seconds is 100 WPM and scores 6 |
| Scoring.PerfectTranscript | completecode.py:255-314 | a transcript meeting every criterion scores exactly 100 with the outstanding sentence |
| Scoring.RequestDuration | completecode.py:349-350 | the duration used is positive, and unchanged when it was already positive |
| Scoring.HandlerRate | completecode.py:349-351 | through the handler the speech rate always follows the per-minute formula, and equals the word count when no duration was given |

## Left out

- The web application (routes, JSON parsing, error responses, the HTML
  template) is not modelled. The one exception is the duration rule of the
  scoring route (`RequestDuration`).
- The NLTK tokenizer is not modelled: the word sequence is an input of
  `Analysis`. The regular-expression fallback is modelled as
  `Text.FallbackTokens`. The `try/except` choice between the two is not.
- Unicode is not modelled: `lower`, `\w` and `\s` are their ASCII
  versions, plus Python's \x1c..\x1f whitespace separators.
- Floating point is not modelled: rates and ratios are exact reals, so
  rounding at bucket edges is not captured.
- `round(total_score, 0)` is not modelled. The total is already a natural
  number.
- Formatting is not modelled. The two-decimal display of values is kept as
  numbers. The keyword feedback string is the structured
  `KeywordSummary(found, missing)`.
- Fixed sentences and category and metric names are tags. `Rubric.Wording`,
  `Rubric.CategoryLabel` and `Rubric.MetricLabel` give their exact text.
- Result dictionaries are modelled as sequences of pairs in insertion order.
- Range strings are not parsed: each bucket's range is structured data.
  - The WPM branch, the `is_filler_rate` branch and the generic branch of
    `get_score_and_feedback` therefore become one range predicate.
  - The bare `except` of the generic branch only fires on a malformed range
    string, which this representation cannot express.
  - The rule description strings are not modelled.
- `Matcher.GetScoreAndFeedback` requires a non-empty bucket list. On an
  empty list the source raises `IndexError`, and no list in the rubric is
  empty.
- The grammar checker is a constant in the source (0.8 errors per 100
  words). It is modelled as the same constant.
